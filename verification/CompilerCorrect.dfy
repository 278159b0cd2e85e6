// The generated code does what the tree means: wherever it is loaded, with
// whatever is on the stack and in the capture list, the machine that runs it
// delivers the outcome that the parsing expression has at the position where it
// was started.

module CompilerCorrect {
  import opened PegSyntax
  import opened Analysis
  import opened Vm
  import opened CodeGen
  import opened Calls

  // What `lp_behind` checks of a look-behind, everywhere in a tree.
  ghost predicate WellFormed(rules: seq<Tree>, t: Tree)
    decreases t
  {
    match t
    case TRep(p) => WellFormed(rules, p)
    case TSeq(p1, p2) => WellFormed(rules, p1) && WellFormed(rules, p2)
    case TChoice(p1, p2) => WellFormed(rules, p1) && WellFormed(rules, p2)
    case TNot(p) => WellFormed(rules, p)
    case TAnd(p) => WellFormed(rules, p)
    case TGrammar(rs) => forall k :: 0 <= k < |rs| ==> WellFormed(rs, rs[k])
    case TBehind(n, p) => n == Length(rules, p) && WellFormed(rules, p)
    case TCapture(_, _, p) => WellFormed(rules, p)
    case _ => true
  }

  // The grammar around a piece of code: its rules and where they start.
  datatype Scope = Scope(depth: nat, rules: seq<Tree>, positions: seq<int>)

  function RuleCode(sc: Scope, k: nat): seq<Slot>
    requires k < |sc.rules|
  {
    Code(sc.depth, sc.rules, sc.rules[k], false, NoTest, AllBytes())
  }

  ghost predicate RuleLoaded(m: Machine, sc: Scope, k: nat)
    requires k < |sc.rules| && |sc.positions| == |sc.rules|
  {
    && Loaded(m.code, sc.positions[k], RuleCode(sc, k) + [Inst(IRet, 0, 0)], sc.positions)
    && WellFormed(sc.rules, sc.rules[k])
  }

  ghost predicate InScope(m: Machine, sc: Scope) {
    && |sc.positions| == |sc.rules|
    && forall k :: 0 <= k < |sc.rules| ==> RuleLoaded(m, sc, k)
  }

  function CodeIn(sc: Scope, t: Tree, opt: bool, tt: Test, fl: Charset): seq<Slot> {
    Code(sc.depth, sc.rules, t, opt, tt, fl)
  }

  // The test `tt` has just succeeded at position `i`.
  predicate Guarded(m: Machine, tt: Test, i: nat) {
    match tt
    case NoTest => true
    case CharTest(c) => i < |m.s| && m.s[i] == c
    case SetTest(cs) => i < |m.s| && m.s[i] in cs
  }

  // From `st` the machine delivers the outcome `r` of a pattern whose code ends
  // at `b`. A pattern that matches may still fail early when the character
  // after the match is outside the follow set `fl`, as what follows is then
  // bound to fail. With `opt`, the top entry belongs to the enclosing optional
  // pattern: a match may update it, or use it to leave that pattern.
  ghost predicate Delivers(m: Machine, st: State, b: int, stack: Stack, caps: seq<Capture>,
                           opt: bool, fl: Charset, r: Outcome)
    requires opt ==> stack.Push? && stack.top.Back?
  {
    match r
    case Diverged => true
    case NoMatch => FailsOnto(m, st, stack, caps)
    case Matched(j, cs) =>
      if opt then DeliversOpt(m, st, b, stack, j, caps + cs)
      else
        || Joins(m, st, Running(b, j, stack, caps + cs))
        || (j < |m.s| && m.s[j] !in fl && FailsOnto(m, st, stack, caps))
  }

  ghost predicate DeliversOpt(m: Machine, st: State, b: int, stack: Stack, j: nat, caps: seq<Capture>)
    requires stack.Push? && stack.top.Back?
  {
    || (exists x, y :: Joins(m, st, Running(b, j, Push(Back(stack.top.p, x, y), stack.rest), caps)))
    || FailsOnto(m, st, Push(Back(stack.top.p, j, |caps|), stack.rest), caps)
  }

  lemma DeliversMatch(m: Machine, st: State, b: int, stack: Stack, caps: seq<Capture>,
                      opt: bool, fl: Charset, j: nat, cs: seq<Capture>)
    requires opt ==> stack.Push? && stack.top.Back?
    requires Joins(m, st, Running(b, j, stack, caps + cs))
    ensures Delivers(m, st, b, stack, caps, opt, fl, Matched(j, cs))
  {
    if opt {
      assert stack == Push(Back(stack.top.p, stack.top.s, stack.top.caplevel), stack.rest);
    }
  }

  lemma DeliversAfter(m: Machine, st: State, next: State, b: int, stack: Stack, caps: seq<Capture>,
                      opt: bool, fl: Charset, r: Outcome)
    requires opt ==> stack.Push? && stack.top.Back?
    requires Joins(m, st, next) && Delivers(m, next, b, stack, caps, opt, fl, r)
    ensures Delivers(m, st, b, stack, caps, opt, fl, r)
  {
    match r
    case Diverged =>
    case NoMatch => FailsAfter(m, st, next, stack, caps);
    case Matched(j, cs) =>
      if opt {
        DeliversOptAfter(m, st, next, b, stack, j, caps + cs);
      } else if Joins(m, next, Running(b, j, stack, caps + cs)) {
        JoinsTrans(m, st, next, Running(b, j, stack, caps + cs));
      } else {
        FailsAfter(m, st, next, stack, caps);
      }
  }

  lemma DeliversOptAfter(m: Machine, st: State, next: State, b: int, stack: Stack, j: nat, caps: seq<Capture>)
    requires stack.Push? && stack.top.Back?
    requires Joins(m, st, next) && DeliversOpt(m, next, b, stack, j, caps)
    ensures DeliversOpt(m, st, b, stack, j, caps)
  {
    if x, y :| Joins(m, next, Running(b, j, Push(Back(stack.top.p, x, y), stack.rest), caps)) {
      JoinsTrans(m, st, next, Running(b, j, Push(Back(stack.top.p, x, y), stack.rest), caps));
    } else {
      FailsAfter(m, st, next, Push(Back(stack.top.p, j, |caps|), stack.rest), caps);
    }
  }

  // Carry the end of the code from `b` to `e` when one leads to the other.
  lemma DeliversAt(m: Machine, st: State, b: int, e: int, stack: Stack, caps: seq<Capture>, fl: Charset, r: Outcome)
    requires Delivers(m, st, b, stack, caps, false, fl, r)
    requires r.Matched? ==> Joins(m, Running(b, r.end, stack, caps + r.caps), Running(e, r.end, stack, caps + r.caps))
    ensures Delivers(m, st, e, stack, caps, false, fl, r)
  {
    if r.Matched? && Joins(m, st, Running(b, r.end, stack, caps + r.caps)) {
      JoinsTrans(m, st, Running(b, r.end, stack, caps + r.caps), Running(e, r.end, stack, caps + r.caps));
    }
  }

  // With the full follow set a match cannot fail early.
  lemma DeliversFull(m: Machine, st: State, b: int, stack: Stack, caps: seq<Capture>, r: Outcome)
    requires r.Matched? && Delivers(m, st, b, stack, caps, false, AllBytes(), r)
    ensures Joins(m, st, Running(b, r.end, stack, caps + r.caps))
  {
  }

  // -------------------------------------------------------------------------
  // Tests
  // -------------------------------------------------------------------------

  lemma TestRuns(m: Machine, sc: Scope, cs: Charset, off: int, a: int, i: nat, stack: Stack, caps: seq<Capture>)
    requires i <= |m.s| && Loaded(m.code, a, CodeTest(cs, off), sc.positions)
    ensures |CodeTest(cs, off)| == TestSize(cs)
    ensures var passes := i < |m.s| && m.s[i] in cs;
            && Step(m, Running(a, i, stack, caps)) == Running(if passes then a + TestSize(cs) else a + off, i, stack, caps)
            && (passes ==> Guarded(m, TestOf(cs), i))
  {
    var kind := CharsetType(cs);
    if kind.OtherSet? {
      var head := [Inst(ITestSet, 0, 0), Offset(off)];
      assert head == Jump(ITestSet, off);
      LoadedSplit(m.code, a, head, Buffer(cs), sc.positions);
      LoadedJump(m.code, a, ITestSet, off, sc.positions);
      if i < |m.s| { LoadedBuffer(m.code, a + 2, cs, sc.positions, m.s[i]); }
    } else {
      assert SlotFits(m.code, a + 0, CodeTest(cs, off)[0], sc.positions);
      assert SlotFits(m.code, a + 1, CodeTest(cs, off)[1], sc.positions);
    }
  }

  lemma CharRuns(m: Machine, sc: Scope, fuel: nat, c: Byte, tt: Test, fl: Charset, a: int, i: nat,
                 stack: Stack, caps: seq<Capture>)
    requires i <= |m.s| && Guarded(m, tt, i)
    requires Loaded(m.code, a, CodeChar(c, tt), sc.positions)
    ensures Delivers(m, Running(a, i, stack, caps), a + 1, stack, caps, false, fl,
                     if i < |m.s| && m.s[i] == c then Matched(i + 1, []) else NoMatch)
  {
    LoadedInst(m.code, a, CodeChar(c, tt)[0], sc.positions);
    OneStep(m, Running(a, i, stack, caps), a + 1, i + 1, stack, caps, fl);
  }

  // One instruction that either moves on to `b` at `j` or fails.
  lemma OneStep(m: Machine, st: State, b: int, j: nat, stack: Stack, caps: seq<Capture>, fl: Charset)
    ensures Step(m, st) == Running(b, j, stack, caps) ==>
              Delivers(m, st, b, stack, caps, false, fl, Matched(j, []))
    ensures Step(m, st) == Failing(stack, caps) ==>
              Delivers(m, st, b, stack, caps, false, fl, NoMatch)
  {
    JoinsStep(m, st);
    assert caps + [] == caps;
    if Step(m, st) == Failing(stack, caps) { FailsNow(m, stack, caps, caps); FailsAfter(m, st, Step(m, st), stack, caps); }
  }

  lemma CharsetRuns(m: Machine, sc: Scope, cs: Charset, tt: Test, fl: Charset, a: int, i: nat,
                    stack: Stack, caps: seq<Capture>)
    requires i <= |m.s| && Guarded(m, tt, i)
    requires Loaded(m.code, a, CodeCharset(cs, tt), sc.positions)
    ensures Delivers(m, Running(a, i, stack, caps), a + |CodeCharset(cs, tt)|, stack, caps, false, fl,
                     if i < |m.s| && m.s[i] in cs then Matched(i + 1, []) else NoMatch)
  {
    var st := Running(a, i, stack, caps);
    match CharsetType(cs)
    case Single(c) => CharRuns(m, sc, 0, c, tt, fl, a, i, stack, caps);
    case OtherSet =>
      if tt == SetTest(cs) {
        LoadedInst(m.code, a, Inst(IAny, 0, 0), sc.positions);
        OneStep(m, st, a + 1, i + 1, stack, caps, fl);
      } else {
        LoadedSplit(m.code, a, [Inst(ISet, 0, 0)], Buffer(cs), sc.positions);
        LoadedInst(m.code, a, Inst(ISet, 0, 0), sc.positions);
        if i < |m.s| { LoadedBuffer(m.code, a + 1, cs, sc.positions, m.s[i]); }
        OneStep(m, st, a + CHARSET_INST_SIZE, i + 1, stack, caps, fl);
      }
    case EmptySet =>
      LoadedInst(m.code, a, Inst(IFail, 0, 0), sc.positions);
      OneStep(m, st, a + 1, i + 1, stack, caps, fl);
    case FullSet =>
      LoadedInst(m.code, a, Inst(IAny, 0, 0), sc.positions);
      OneStep(m, st, a + 1, i + 1, stack, caps, fl);
  }

  // The optional test in front of a choice, a repetition or a predicate.
  function OptionalTest(f: FirstSet, off: int): seq<Slot> {
    if f.empty then [] else CodeTest(f.cs, off)
  }

  predicate Passes(m: Machine, f: FirstSet, i: nat) {
    f.empty || (i < |m.s| && m.s[i] in f.cs)
  }

  lemma OptionalTestRuns(m: Machine, sc: Scope, f: FirstSet, off: int, a: int, i: nat, stack: Stack, caps: seq<Capture>)
    requires i <= |m.s| && Loaded(m.code, a, OptionalTest(f, off), sc.positions)
    ensures Joins(m, Running(a, i, stack, caps),
                  Running(if Passes(m, f, i) then a + |OptionalTest(f, off)| else a + off, i, stack, caps))
    ensures !f.empty ==> |OptionalTest(f, off)| == TestSize(f.cs)
    ensures Passes(m, f, i) ==> Guarded(m, if f.empty then NoTest else TestOf(f.cs), i)
  {
    hide Joins, Step, CodeTest, Guarded, TestSize;
    if f.empty {
      JoinsSelf(m, Running(a, i, stack, caps));
      assert Guarded(m, NoTest, i) by { NoTestGuards(m, i); }
    } else {
      TestRuns(m, sc, f.cs, off, a, i, stack, caps);
      JoinsStep(m, Running(a, i, stack, caps));
    }
  }

  lemma NoTestGuards(m: Machine, i: nat)
    ensures Guarded(m, NoTest, i)
  {
  }

  // -------------------------------------------------------------------------
  // How the constructs fit together, whatever code their parts have
  // -------------------------------------------------------------------------

  // Code that never touches the enclosing choice serves inside it as well.
  lemma DeliversInside(m: Machine, st: State, b: int, stack: Stack, caps: seq<Capture>,
                       opt: bool, fl: Charset, r: Outcome)
    requires opt ==> fl == AllBytes() && stack.Push? && stack.top.Back?
    requires Delivers(m, st, b, stack, caps, false, fl, r)
    ensures Delivers(m, st, b, stack, caps, opt, fl, r)
  {
    hide Joins, FailsOnto;
    if opt && r.Matched? { DeliversMatch(m, st, b, stack, caps, opt, fl, r.end, r.caps); }
  }

  // Failing serves for a pattern that can only match by stopping right where it
  // is, in front of a character that cannot follow.
  lemma FailsServes(m: Machine, st: State, b: int, stack: Stack, caps: seq<Capture>,
                    opt: bool, fl: Charset, i: nat, r: Outcome)
    requires opt ==> fl == AllBytes() && stack.Push? && stack.top.Back?
    requires FailsOnto(m, st, stack, caps)
    requires r.Matched? ==> r.end == i < |m.s| && m.s[i] !in fl
    ensures Delivers(m, st, b, stack, caps, opt, fl, r)
  {
  }

  // A match without consuming or capturing.
  lemma DeliversNothing(m: Machine, st: State, b: int, i: nat, stack: Stack, caps: seq<Capture>, opt: bool, fl: Charset)
    requires opt ==> stack.Push? && stack.top.Back?
    requires Joins(m, st, Running(b, i, stack, caps))
    ensures Delivers(m, st, b, stack, caps, opt, fl, Matched(i, []))
  {
    hide Joins, FailsOnto;
    assert caps + [] == caps;
    DeliversMatch(m, st, b, stack, caps, opt, fl, i, []);
  }

  function Then(cs: seq<Capture>, r2: Outcome): Outcome {
    if r2.Matched? then Matched(r2.end, cs + r2.caps) else r2
  }

  lemma SeqOutcome(m: Machine, st: State, b: int, stack: Stack, caps: seq<Capture>, cs: seq<Capture>,
                   opt: bool, fl: Charset, r2: Outcome)
    requires opt ==> stack.Push? && stack.top.Back?
    requires Delivers(m, st, b, stack, caps + cs, opt, fl, r2)
    ensures Delivers(m, st, b, stack, caps, opt, fl, Then(cs, r2))
  {
    hide Joins, FailsOnto;
    match r2
    case Diverged =>
    case NoMatch => FailsWithLess(m, st, stack, caps + cs, caps);
    case Matched(j, c2) =>
      assert caps + cs + c2 == caps + (cs + c2);
      if !opt && !Joins(m, st, Running(b, j, stack, caps + cs + c2)) {
        FailsWithLess(m, st, stack, caps + cs, caps);
      }
  }

  // `p1; p2` where `p1` has matched, to be followed by a character of `fl1`.
  lemma SeqDelivers(m: Machine, st: State, mid: int, b: int, stack: Stack, caps: seq<Capture>,
                    opt: bool, fl1: Charset, fl: Charset, r1: Outcome, r2: Outcome)
    requires opt ==> fl == AllBytes() && stack.Push? && stack.top.Back?
    requires r1.Matched? && Delivers(m, st, mid, stack, caps, false, fl1, r1)
    requires Delivers(m, Running(mid, r1.end, stack, caps + r1.caps), b, stack, caps + r1.caps, opt, fl, r2)
    requires r1.end < |m.s| && m.s[r1.end] !in fl1 && r2.Matched? ==> r2.end == r1.end && m.s[r1.end] !in fl
    ensures Delivers(m, st, b, stack, caps, opt, fl, Then(r1.caps, r2))
  {
    hide Joins, FailsOnto;
    var at := Running(mid, r1.end, stack, caps + r1.caps);
    if Joins(m, st, at) {
      DeliversAfter(m, st, at, b, stack, caps + r1.caps, opt, fl, r2);
      SeqOutcome(m, st, b, stack, caps, r1.caps, opt, fl, r2);
    } else {
      FailsServes(m, st, b, stack, caps, opt, fl, r1.end, Then(r1.caps, r2));
    }
  }

  // `choice L1; p1; commit L2; L1: p2; L2:`
  lemma ChoiceDelivers(m: Machine, q: int, n1: nat, n2: nat, i: nat, stack: Stack, caps: seq<Capture>,
                       opt1: bool, opt: bool, fl: Charset, r1: Outcome, r2: Outcome)
    requires i <= |m.s| && (r1.Matched? ==> r1.end <= |m.s|)
    requires opt ==> stack.Push? && stack.top.Back?
    requires opt1 ==> n2 == 0
    requires At(m.code, q, IChoice, 2 + n1 + 2) && At(m.code, q + 2 + n1, ICommit, 2 + n2)
    requires Delivers(m, Running(q + 2, i, Push(Back(q + 2 + n1 + 2, i, |caps|), stack), caps), q + 2 + n1,
                      Push(Back(q + 2 + n1 + 2, i, |caps|), stack), caps, opt1, AllBytes(), r1)
    requires Delivers(m, Running(q + 2 + n1 + 2, i, stack, caps), q + 2 + n1 + 2 + n2, stack, caps, opt, fl, r2)
    ensures Delivers(m, Running(q, i, stack, caps), q + 2 + n1 + 2 + n2, stack, caps, opt, fl,
                     if r1.NoMatch? then r2 else r1)
  {
    hide Joins, FailsOnto, At;
    var st := Running(q, i, stack, caps);
    var l1 := q + 2 + n1 + 2;
    var b := l1 + n2;
    var stack1 := Push(Back(l1, i, |caps|), stack);
    var body := Running(q + 2, i, stack1, caps);
    ChoiceRuns(m, q, 2 + n1 + 2, i, stack, caps);
    if r1.NoMatch? {
      FailsToEntry(m, body, l1, i, stack, caps);
      JoinsTrans(m, st, body, Running(l1, i, stack, caps));
      DeliversAfter(m, st, Running(l1, i, stack, caps), b, stack, caps, opt, fl, r2);
    } else if r1.Matched? {
      CommitJoins(m, body, q + 2 + n1, n2, opt1, stack, stack1, caps, r1);
      JoinsTrans(m, st, body, Running(b, r1.end, stack, caps + r1.caps));
      DeliversMatch(m, st, b, stack, caps, opt, fl, r1.end, r1.caps);
    }
  }

  lemma CommitJoins(m: Machine, body: State, q: int, n2: nat, opt1: bool, stack: Stack, stack1: Stack,
                    caps: seq<Capture>, r1: Outcome)
    requires r1.Matched? && r1.end <= |m.s|
    requires stack1.Push? && stack1.top.Back? && stack1.top.p == q + 2 && stack1.rest == stack
    requires Delivers(m, body, q, stack1, caps, opt1, AllBytes(), r1)
    requires At(m.code, q, ICommit, 2 + n2) && (opt1 ==> n2 == 0)
    ensures Joins(m, body, Running(q + 2 + n2, r1.end, stack, caps + r1.caps))
  {
    hide Joins, FailsOnto, At;
    var all := caps + r1.caps;
    var l1 := q + 2;
    if opt1 {
      if x, y :| Joins(m, body, Running(q, r1.end, Push(Back(l1, x, y), stack), all)) {
        CommitRuns(m, q, 2 + n2, l1, x, y, r1.end, stack, all);
        JoinsTrans(m, body, Running(q, r1.end, Push(Back(l1, x, y), stack), all),
                   Running(q + 2 + n2, r1.end, stack, all));
      } else {
        FailsToEntry(m, body, q + 2, r1.end, stack, all);
      }
    } else {
      CommitRuns(m, q, 2 + n2, q + 2, stack1.top.s, stack1.top.caplevel, r1.end, stack, all);
      JoinsTrans(m, body, Running(q, r1.end, stack1, all), Running(q + 2 + n2, r1.end, stack, all));
    }
  }

  // `partialcommit L1; L1: p1` inside an optional pattern.
  lemma OptionDelivers(m: Machine, q: int, b: int, i: nat, stack: Stack, caps: seq<Capture>, r1: Outcome)
    requires i <= |m.s| && stack.Push? && stack.top.Back? && At(m.code, q, IPartialCommit, 2)
    requires Delivers(m, Running(q + 2, i, Push(Back(stack.top.p, i, |caps|), stack.rest), caps), b,
                      Push(Back(stack.top.p, i, |caps|), stack.rest), caps, true, AllBytes(), r1)
    ensures Delivers(m, Running(q, i, stack, caps), b, stack, caps, true, AllBytes(),
                     if r1.NoMatch? then Matched(i, []) else r1)
  {
    hide Joins, FailsOnto, At;
    var st := Running(q, i, stack, caps);
    var stack1 := Push(Back(stack.top.p, i, |caps|), stack.rest);
    var next := Running(q + 2, i, stack1, caps);
    PartialCommitRuns(m, q, 2, stack.top.p, stack.top.s, stack.top.caplevel, i, stack.rest, caps);
    match r1
    case Diverged =>
    case NoMatch =>
      FailsAfter(m, st, next, stack1, caps);
      assert caps + [] == caps;
    case Matched(j, cs) => DeliversOptAfter(m, st, next, b, stack1, j, caps + cs);
  }

  // `choice L1; p; failtwice; L1:`
  lemma NotDelivers(m: Machine, q: int, n: nat, i: nat, stack: Stack, caps: seq<Capture>, fl: Charset, r1: Outcome)
    requires i <= |m.s| && (r1.Matched? ==> r1.end <= |m.s|)
    requires At(m.code, q, IChoice, 2 + n + 1) && IsOp(m.code, q + 2 + n, IFailTwice)
    requires Delivers(m, Running(q + 2, i, Push(Back(q + 2 + n + 1, i, |caps|), stack), caps), q + 2 + n,
                      Push(Back(q + 2 + n + 1, i, |caps|), stack), caps, false, AllBytes(), r1)
    ensures Delivers(m, Running(q, i, stack, caps), q + 2 + n + 1, stack, caps, false, fl,
                     if r1.Diverged? then r1 else if r1.NoMatch? then Matched(i, []) else NoMatch)
  {
    hide Joins, FailsOnto, At;
    var st := Running(q, i, stack, caps);
    var b := q + 2 + n + 1;
    var stack1 := Push(Back(b, i, |caps|), stack);
    var next := Running(q + 2, i, stack1, caps);
    ChoiceRuns(m, q, 2 + n + 1, i, stack, caps);
    match r1
    case Diverged =>
    case NoMatch =>
      FailsToEntry(m, next, b, i, stack, caps);
      JoinsTrans(m, st, next, Running(b, i, stack, caps));
      DeliversNothing(m, st, b, i, stack, caps, false, fl);
    case Matched(j, cs) =>
      var at := Running(q + 2 + n, j, stack1, caps + cs);
      JoinsTrans(m, st, next, at);
      FailTwiceRuns(m, q + 2 + n, j, stack1.top, stack, caps, cs);
      FailsAfter(m, st, at, stack, caps);
  }

  function AndOutcome(i: nat, r1: Outcome): Outcome {
    if r1.Matched? then Matched(i, []) else r1
  }

  // `choice L1; p; backcommit L2; L1: fail; L2:`
  lemma AndDelivers(m: Machine, q: int, n: nat, i: nat, stack: Stack, caps: seq<Capture>, fl: Charset, r1: Outcome)
    requires i <= |m.s| && (r1.Matched? ==> r1.end <= |m.s|)
    requires At(m.code, q, IChoice, 2 + n + 2) && At(m.code, q + 2 + n, IBackCommit, 3)
    requires IsOp(m.code, q + 2 + n + 2, IFail)
    requires Delivers(m, Running(q + 2, i, Push(Back(q + 2 + n + 2, i, |caps|), stack), caps), q + 2 + n,
                      Push(Back(q + 2 + n + 2, i, |caps|), stack), caps, false, AllBytes(), r1)
    ensures Delivers(m, Running(q, i, stack, caps), q + 2 + n + 3, stack, caps, false, fl, AndOutcome(i, r1))
  {
    hide Joins, FailsOnto, At;
    var st := Running(q, i, stack, caps);
    var l1 := q + 2 + n + 2;
    var stack1 := Push(Back(l1, i, |caps|), stack);
    var next := Running(q + 2, i, stack1, caps);
    ChoiceRuns(m, q, 2 + n + 2, i, stack, caps);
    match r1
    case Diverged =>
    case NoMatch =>
      FailsToEntry(m, next, l1, i, stack, caps);
      JoinsTrans(m, st, next, Running(l1, i, stack, caps));
      FailRuns(m, l1, i, stack, caps);
      FailsAfter(m, st, Running(l1, i, stack, caps), stack, caps);
    case Matched(j, cs) =>
      var at := Running(q + 2 + n, j, stack1, caps + cs);
      JoinsTrans(m, st, next, at);
      BackCommitRuns(m, q + 2 + n, 3, l1, i, j, stack, caps, cs);
      JoinsTrans(m, st, at, Running(q + 2 + n + 3, i, stack, caps));
      DeliversNothing(m, st, q + 2 + n + 3, i, stack, caps, false, fl);
  }

  // `p; behind n` for a pattern of fixed length without captures.
  lemma AndByLengthDelivers(m: Machine, st: State, q: int, n: nat, i: nat, stack: Stack, caps: seq<Capture>,
                            fl: Charset, r1: Outcome)
    requires r1.Matched? ==> r1.caps == [] && r1.end == i + n <= |m.s|
    requires n > 0 ==> HasInst(m.code, q) && m.code[q] == Inst(IBehind, n, 0)
    requires Delivers(m, st, q, stack, caps, false, AllBytes(), r1)
    ensures Delivers(m, st, if n > 0 then q + 1 else q, stack, caps, false, fl, AndOutcome(i, r1))
  {
    hide Joins, FailsOnto;
    if r1.Matched? {
      assert caps + [] == caps;
      if n > 0 {
        BehindRuns(m, q, n, r1.end, stack, caps);
        JoinsTrans(m, st, Running(q, r1.end, stack, caps), Running(q + 1, i, stack, caps));
      }
    }
  }

  // `fullcapture` after a body of fixed length without captures.
  lemma FullCaptureDelivers(m: Machine, st: State, q: int, kind: Kind, key: nat, len: nat, i: nat, stack: Stack,
                            caps: seq<Capture>, fl: Charset, r1: Outcome)
    requires r1.Matched? ==> r1.caps == [] && r1.end == i + len <= |m.s|
    requires HasInst(m.code, q) && m.code[q] == Inst(IFullCapture, kind + 16 * len, key) && len < UCHAR_MAX
    requires Delivers(m, st, q, stack, caps, false, fl, r1)
    ensures Delivers(m, st, q + 1, stack, caps, false, fl,
                     if r1.Matched? then Matched(r1.end, Enclose(kind, key, i, r1.end, r1.caps)) else r1)
  {
    hide Joins, FailsOnto;
    if r1.Matched? {
      assert caps + [] == caps;
      FullCaptureRuns(m, q, kind, len, key, r1.end, stack, caps);
      var at := Running(q, r1.end, stack, caps);
      var end := Running(q + 1, r1.end, stack, caps + Enclose(kind, key, i, r1.end, []));
      assert Joins(m, at, end);
      if Joins(m, st, at) { JoinsTrans(m, st, at, end); }
    }
  }

  lemma CloseEncloses(caps: seq<Capture>, kind: Kind, key: nat, i: nat, j: nat, cs: seq<Capture>)
    requires i <= j && (cs != [] ==> cs[|cs| - 1].siz != 0)
    ensures CloseCapture(caps + [Capture(i, key, kind, 0)] + cs, j, 0, C_CLOSE) == caps + Enclose(kind, key, i, j, cs)
  {
    var all := caps + [Capture(i, key, kind, 0)] + cs;
    if cs == [] && j - i < UCHAR_MAX {
      assert all == caps + [Capture(i, key, kind, 0)];
      ClosedInPlace(caps, Capture(i, key, kind, 0), j);
    } else {
      assert all[|all| - 1] == if cs == [] then Capture(i, key, kind, 0) else cs[|cs| - 1];
      ClosedBehind(caps, [Capture(i, key, kind, 0)], cs, Capture(j, 0, C_CLOSE, 1));
    }
  }

  lemma ClosedInPlace(caps: seq<Capture>, open: Capture, j: nat)
    requires open.siz == 0 && open.s <= j && j - open.s < UCHAR_MAX
    ensures CloseCapture(caps + [open], j, 0, C_CLOSE) == caps + [Capture(open.s, open.idx, open.kind, j - open.s + 1)]
  {
    var all := caps + [open];
    assert all[|all| - 1] == open && all[..|all| - 1] == caps;
  }

  lemma ClosedBehind(caps: seq<Capture>, open: seq<Capture>, cs: seq<Capture>, close: Capture)
    ensures caps + open + cs + [close] == caps + (open + cs + [close])
  {
  }

  // `opencapture; p; closecapture`
  lemma CaptureDelivers(m: Machine, q: int, n: nat, kind: Kind, key: nat, i: nat, stack: Stack,
                        caps: seq<Capture>, fl: Charset, r1: Outcome)
    requires i <= |m.s| && (r1.Matched? ==> i <= r1.end <= |m.s|)
    requires r1.Matched? && r1.caps != [] ==> r1.caps[|r1.caps| - 1].siz != 0
    requires HasInst(m.code, q) && m.code[q] == Inst(IOpenCapture, kind, key)
    requires HasInst(m.code, q + 1 + n) && m.code[q + 1 + n] == Inst(ICloseCapture, C_CLOSE, 0)
    requires Delivers(m, Running(q + 1, i, stack, caps + [Capture(i, key, kind, 0)]), q + 1 + n, stack,
                      caps + [Capture(i, key, kind, 0)], false, fl, r1)
    ensures Delivers(m, Running(q, i, stack, caps), q + 1 + n + 1, stack, caps, false, fl,
                     if r1.Matched? then Matched(r1.end, Enclose(kind, key, i, r1.end, r1.caps)) else r1)
  {
    hide Joins, FailsOnto, CloseCapture, Enclose;
    var st := Running(q, i, stack, caps);
    var caps1 := caps + [Capture(i, key, kind, 0)];
    OpenRuns(m, q, kind, key, i, stack, caps);
    DeliversAfter(m, st, Running(q + 1, i, stack, caps1), q + 1 + n, stack, caps1, false, fl, r1);
    match r1
    case Diverged =>
    case NoMatch => FailsWithLess(m, st, stack, caps1, caps);
    case Matched(j, cs) =>
      var at := Running(q + 1 + n, j, stack, caps1 + cs);
      if Joins(m, st, at) {
        CloseEncloses(caps, kind, key, i, j, cs);
        CloseRuns(m, q + 1 + n, j, stack, caps1 + cs);
        JoinsTrans(m, st, at, Running(q + 1 + n + 1, j, stack, caps + Enclose(kind, key, i, j, cs)));
      } else {
        FailsWithLess(m, st, stack, caps1, caps);
      }
  }

  // A call, or a jump in its place, whose rule returns at `ret`.
  lemma CallDelivers(m: Machine, q: int, pos: int, ret: int, i: nat, stack: Stack, caps: seq<Capture>,
                     fl: Charset, r: Outcome)
    requires i <= |m.s| && (r.Matched? ==> r.end <= |m.s|)
    requires CallsRule(m.code, q, pos) && IsOp(m.code, ret, IRet)
    requires var stack1 := if IsOp(m.code, q, ICall) then Push(Ret(q + 2), stack) else stack;
             Delivers(m, Running(pos, i, stack1, caps), ret, stack1, caps, false, AllBytes(), r)
    ensures Delivers(m, Running(q, i, stack, caps), q + 2, stack, caps, false, fl, r)
  {
    hide Joins, FailsOnto, LeadsToReturn;
    var called := IsOp(m.code, q, ICall);
    var stack1 := if called then Push(Ret(q + 2), stack) else stack;
    var st := Running(q, i, stack, caps);
    var next := Running(pos, i, stack1, caps);
    CallRuns(m, q, pos - q, i, stack, caps);
    if r.Matched? {
      var at := Running(ret, r.end, stack1, caps + r.caps);
      JoinsTrans(m, st, next, at);
      if called {
        RetRuns(m, ret, q + 2, r.end, stack, caps + r.caps);
      } else {
        ReturnsJoin(m, q + 2, ret, r.end, stack, caps + r.caps);
      }
      JoinsTrans(m, st, at, Running(q + 2, r.end, stack, caps + r.caps));
    } else if r.NoMatch? {
      FailsAfter(m, st, next, stack1, caps);
      if called { FailsThroughCall(m, st, q + 2, stack, caps); }
    }
  }

  lemma {:induction false} JumpsJoin(m: Machine, q: int, n: nat, i: nat, stack: Stack, caps: seq<Capture>)
    requires i <= |m.s|
    ensures Joins(m, Running(q, i, stack, caps), Running(FinalTarget(m.code, q, n), i, stack, caps))
    decreases n
  {
    hide Joins;
    var st := Running(q, i, stack, caps);
    if n == 0 || !IsJump(m.code, q) {
      JoinsSelf(m, st);
    } else {
      JumpsJoin(m, q + m.code[q + 1].off, n - 1, i, stack, caps);
      CallRuns(m, q, m.code[q + 1].off, i, stack, caps);
      JoinsTrans(m, st, Running(q + m.code[q + 1].off, i, stack, caps),
                 Running(FinalTarget(m.code, q, n), i, stack, caps));
    }
  }

  // Two places that both lead to a return are as good as one another.
  lemma ReturnsJoin(m: Machine, q: int, ret: int, i: nat, stack: Stack, caps: seq<Capture>)
    requires i <= |m.s| && LeadsToReturn(m.code, q) && IsOp(m.code, ret, IRet)
    ensures Joins(m, Running(ret, i, stack, caps), Running(q, i, stack, caps))
  {
    hide Joins, FinalTarget;
    var n: nat :| IsOp(m.code, FinalTarget(m.code, q, n), IRet);
    var at := Running(FinalTarget(m.code, q, n), i, stack, caps);
    JumpsJoin(m, q, n, i, stack, caps);
    JoinsBack(m, Running(q, i, stack, caps), at);
    JoinsStep(m, Running(ret, i, stack, caps));
    JoinsStep(m, at);
    assert Step(m, at) == Step(m, Running(ret, i, stack, caps));
    JoinsBack(m, at, Step(m, at));
    JoinsTrans(m, Running(ret, i, stack, caps), Step(m, at), at);
    JoinsTrans(m, Running(ret, i, stack, caps), at, Running(q, i, stack, caps));
  }

  // -------------------------------------------------------------------------
  // The main simulation
  // -------------------------------------------------------------------------

  // Code loaded at `a` for the tree `t`, started at position `i` after the test
  // `tt` succeeded there, delivers what `t` means.
  lemma {:induction false} Simulates(m: Machine, sc: Scope, fuel: nat, t: Tree, opt: bool, tt: Test, fl: Charset,
                                     a: int, i: nat, stack: Stack, caps: seq<Capture>)
    requires i <= |m.s| && InScope(m, sc) && WellFormed(sc.rules, t)
    requires Loaded(m.code, a, CodeIn(sc, t, opt, tt, fl), sc.positions)
    requires Guarded(m, tt, i)
    requires opt ==> fl == AllBytes() && stack.Push? && stack.top.Back?
    ensures Delivers(m, Running(a, i, stack, caps), a + |CodeIn(sc, t, opt, tt, fl)|, stack, caps, opt, fl,
                     Eval(fuel, sc.rules, t, m.s, i))
    decreases fuel, t, 4
  {
    hide Delivers, Loaded, Eval, InScope, Guarded, WellFormed, Code, CodeChoice, CodeRep;
    CodeShape(sc, t, opt, tt, fl);
    if t.TSeq? {
      SimulatesSeq(m, sc, fuel, t, opt, tt, fl, a, i, stack, caps);
    } else if t.TChoice? {
      SimulatesChoice(m, sc, fuel, t, opt, fl, a, i, stack, caps);
    } else if t.TRep? {
      SimulatesRep(m, sc, fuel, t, opt, fl, a, i, stack, caps);
    } else {
      SimulatesPlain(m, sc, fuel, t, tt, fl, a, i, stack, caps);
      DeliversInside(m, Running(a, i, stack, caps), a + |CodeIn(sc, t, opt, tt, fl)|, stack, caps, opt, fl,
                     Eval(fuel, sc.rules, t, m.s, i));
    }
  }

  // The code of a tree, by the kind of the tree.
  lemma CodeShape(sc: Scope, t: Tree, opt: bool, tt: Test, fl: Charset)
    ensures t.TChoice? ==> CodeIn(sc, t, opt, tt, fl) == CodeChoice(sc.depth, sc.rules, t.p1, t.p2, opt, fl)
    ensures t.TRep? ==> CodeIn(sc, t, opt, tt, fl) == CodeRep(sc.depth, sc.rules, t.p, opt, fl)
    ensures !t.TSeq? && !t.TChoice? && !t.TRep? ==> CodeIn(sc, t, opt, tt, fl) == CodeIn(sc, t, false, tt, fl)
    ensures t.TBehind? ==> CodeIn(sc, t, opt, tt, fl) == CodeIn(sc, t, false, NoTest, fl)
    ensures t.TNot? ==> CodeIn(sc, t, opt, tt, fl) == CodeNot(sc.depth, sc.rules, t.p)
    ensures t.TAnd? ==> CodeIn(sc, t, opt, tt, fl) == CodeAnd(sc.depth, sc.rules, t.p, tt)
    ensures t.TCapture? ==>
              CodeIn(sc, t, opt, tt, fl) == CodeCapture(sc.depth, sc.rules, t.kind, t.key, t.p, tt, fl)
    ensures t.TGrammar? ==> CodeIn(sc, t, opt, tt, fl) == CodeGrammar(sc.depth, t.rules)
    ensures t.TSeq? ==>
              var fl1 := if NeedFollow(t.p1) then GetFirst(sc.depth, sc.rules, t.p2, fl).cs else AllBytes();
              var tt2 := if Length(sc.rules, t.p1) != 0 then NoTest else tt;
              CodeIn(sc, t, opt, tt, fl) == CodeIn(sc, t.p1, false, tt, fl1) + CodeIn(sc, t.p2, opt, tt2, fl)
    ensures t.TBehind? ==>
              CodeIn(sc, t, opt, tt, fl) ==
                (if t.n > 0 then [Inst(IBehind, t.n, 0)] else []) + CodeIn(sc, t.p, false, NoTest, AllBytes())
    ensures t.TChar? ==> CodeIn(sc, t, opt, tt, fl) == CodeChar(t.c, tt)
    ensures t.TSet? ==> CodeIn(sc, t, opt, tt, fl) == CodeCharset(t.cs, tt)
    ensures t.TAny? ==> CodeIn(sc, t, opt, tt, fl) == [Inst(IAny, 0, 0)]
    ensures t.TTrue? ==> CodeIn(sc, t, opt, tt, fl) == []
    ensures t.TFalse? ==> CodeIn(sc, t, opt, tt, fl) == [Inst(IFail, 0, 0)]
    ensures t.TCall? ==> CodeIn(sc, t, opt, tt, fl) == [Inst(IOpenCall, 0, t.rule), Unset]
  {
    hide CodeCharset, GetFirst, FixedLen, CodeChoice, CodeRep, CodeNot, CodeAnd, CodeCapture, CodeGrammar;
  }

  // The trees whose code ignores `opt`.
  lemma {:induction false} SimulatesPlain(m: Machine, sc: Scope, fuel: nat, t: Tree, tt: Test, fl: Charset,
                                          a: int, i: nat, stack: Stack, caps: seq<Capture>)
    requires i <= |m.s| && InScope(m, sc) && WellFormed(sc.rules, t)
    requires !t.TSeq? && !t.TChoice? && !t.TRep?
    requires Loaded(m.code, a, CodeIn(sc, t, false, tt, fl), sc.positions)
    requires Guarded(m, tt, i)
    ensures Delivers(m, Running(a, i, stack, caps), a + |CodeIn(sc, t, false, tt, fl)|, stack, caps, false, fl,
                     Eval(fuel, sc.rules, t, m.s, i))
    decreases fuel, t, 1
  {
    hide Delivers, Loaded, InScope, Guarded, Eval, Code, CodeNot, CodeAnd, CodeCapture, CodeGrammar;
    CodeUnfolds(sc, t, tt, fl);
    match t
    case TBehind(_, _) => SimulatesBehind(m, sc, fuel, t, fl, a, i, stack, caps);
    case TNot(_) => SimulatesNot(m, sc, fuel, t, fl, a, i, stack, caps);
    case TAnd(_) => SimulatesAnd(m, sc, fuel, t, tt, fl, a, i, stack, caps);
    case TCapture(_, _, _) => SimulatesCapture(m, sc, fuel, t, tt, fl, a, i, stack, caps);
    case TGrammar(_) => SimulatesGrammar(m, sc, fuel, t, fl, a, i, stack, caps);
    case TCall(_) => SimulatesCall(m, sc, fuel, t, fl, a, i, stack, caps);
    case _ => SimulatesLeaf(m, sc, fuel, t, tt, fl, a, i, stack, caps);
  }

  lemma CodeUnfolds(sc: Scope, t: Tree, tt: Test, fl: Charset)
    ensures t.TBehind? ==> CodeIn(sc, t, false, tt, fl) == CodeIn(sc, t, false, NoTest, fl)
    ensures t.TNot? ==> CodeIn(sc, t, false, tt, fl) == CodeNot(sc.depth, sc.rules, t.p)
    ensures t.TAnd? ==> CodeIn(sc, t, false, tt, fl) == CodeAnd(sc.depth, sc.rules, t.p, tt)
    ensures t.TCapture? ==> CodeIn(sc, t, false, tt, fl) == CodeCapture(sc.depth, sc.rules, t.kind, t.key, t.p, tt, fl)
    ensures t.TGrammar? ==> CodeIn(sc, t, false, tt, fl) == CodeGrammar(sc.depth, t.rules)
    ensures t.TCall? ==> CodeIn(sc, t, false, tt, fl) == [Inst(IOpenCall, 0, t.rule), Unset]
  {
    hide CodeNot, CodeAnd, CodeCapture, CodeGrammar;
  }

  lemma SimulatesLeaf(m: Machine, sc: Scope, fuel: nat, t: Tree, tt: Test, fl: Charset,
                      a: int, i: nat, stack: Stack, caps: seq<Capture>)
    requires i <= |m.s| && (t.TChar? || t.TSet? || t.TAny? || t.TTrue? || t.TFalse?)
    requires Loaded(m.code, a, CodeIn(sc, t, false, tt, fl), sc.positions)
    requires Guarded(m, tt, i)
    ensures Delivers(m, Running(a, i, stack, caps), a + |CodeIn(sc, t, false, tt, fl)|, stack, caps, false, fl,
                     Eval(fuel, sc.rules, t, m.s, i))
  {
    hide Joins, FailsOnto, Delivers, Guarded, Loaded, CodeCharset;
    var st := Running(a, i, stack, caps);
    match t
    case TChar(c) => CharRuns(m, sc, fuel, c, tt, fl, a, i, stack, caps);
    case TAny =>
      LoadedInst(m.code, a, Inst(IAny, 0, 0), sc.positions);
      OneStep(m, st, a + 1, i + 1, stack, caps, fl);
    case TSet(cs) => CharsetRuns(m, sc, cs, tt, fl, a, i, stack, caps);
    case TTrue =>
      JoinsSelf(m, st);
      DeliversNothing(m, st, a, i, stack, caps, false, fl);
    case TFalse =>
      LoadedInst(m.code, a, Inst(IFail, 0, 0), sc.positions);
      OneStep(m, st, a + 1, i + 1, stack, caps, fl);
  }

  lemma {:induction false} SimulatesSeq(m: Machine, sc: Scope, fuel: nat, t: Tree, opt: bool, tt: Test,
                                        fl: Charset, a: int, i: nat, stack: Stack, caps: seq<Capture>)
    requires i <= |m.s| && InScope(m, sc) && WellFormed(sc.rules, t) && t.TSeq?
    requires Loaded(m.code, a, CodeIn(sc, t, opt, tt, fl), sc.positions)
    requires Guarded(m, tt, i)
    requires opt ==> fl == AllBytes() && stack.Push? && stack.top.Back?
    ensures Delivers(m, Running(a, i, stack, caps), a + |CodeIn(sc, t, opt, tt, fl)|, stack, caps, opt, fl,
                     Eval(fuel, sc.rules, t, m.s, i))
    decreases fuel, t, 1
  {
    hide Joins, FailsOnto, DeliversOpt, Loaded, InScope, GetFirst, FixedLen;
    var TSeq(p1, p2) := t;
    var fl1 := if NeedFollow(p1) then GetFirst(sc.depth, sc.rules, p2, fl).cs else AllBytes();
    var tt2 := if Length(sc.rules, p1) != 0 then NoTest else tt;
    var c1 := CodeIn(sc, p1, false, tt, fl1);
    var c2 := CodeIn(sc, p2, opt, tt2, fl);
    LoadedSplit(m.code, a, c1, c2, sc.positions);
    var st := Running(a, i, stack, caps);
    Simulates(m, sc, fuel, p1, false, tt, fl1, a, i, stack, caps);
    var r1 := Eval(fuel, sc.rules, p1, m.s, i);
    if r1.Matched? {
      if Length(sc.rules, p1) == 0 { FixedLenSound(fuel, sc.rules, NoMarks(|sc.rules|), p1, m.s, i); }
      Simulates(m, sc, fuel, p2, opt, tt2, fl, a + |c1|, r1.end, stack, caps + r1.caps);
      FirstSound(sc.depth, fuel, sc.rules, p2, fl, m.s, r1.end);
      SeqDelivers(m, st, a + |c1|, a + |c1| + |c2|, stack, caps, opt, fl1, fl, r1, Eval(fuel, sc.rules, p2, m.s, r1.end));
    }
  }

  lemma {:induction false} SimulatesChoice(m: Machine, sc: Scope, fuel: nat, t: Tree, opt: bool,
                                           fl: Charset, a: int, i: nat, stack: Stack, caps: seq<Capture>)
    requires i <= |m.s| && InScope(m, sc) && WellFormed(sc.rules, t) && t.TChoice?
    requires Loaded(m.code, a, CodeChoice(sc.depth, sc.rules, t.p1, t.p2, opt, fl), sc.positions)
    requires opt ==> fl == AllBytes() && stack.Push? && stack.top.Back?
    ensures Delivers(m, Running(a, i, stack, caps), a + |CodeChoice(sc.depth, sc.rules, t.p1, t.p2, opt, fl)|,
                     stack, caps, opt, fl, Eval(fuel, sc.rules, t, m.s, i))
    decreases fuel, t, 1
  {
    hide Delivers, Loaded, Eval, InScope, ChoiceByTest, WellFormed;
    if ChoiceByTest(sc.depth, sc.rules, t.p1, t.p2, fl) {
      SimulatesChoiceByTest(m, sc, fuel, t, opt, fl, a, i, stack, caps);
    } else if opt && t.p2.TTrue? {
      SimulatesOption(m, sc, fuel, t, fl, a, i, stack, caps);
    } else {
      SimulatesChoiceDefault(m, sc, fuel, t, opt, fl, a, i, stack, caps);
    }
  }

  // What a test in place of a choice relies on.
  lemma {:induction false} ChoiceByTestDecides(depth: nat, fuel: nat, rules: seq<Tree>, p1: Tree, p2: Tree,
                                               fl: Charset, s: seq<Byte>, i: nat)
    requires i <= |s| && ChoiceByTest(depth, rules, p1, p2, fl)
    ensures var cs1 := GetFirst(depth, rules, p1, AllBytes()).cs;
            var r1 := Eval(fuel, rules, p1, s, i);
            var r2 := Eval(fuel, rules, p2, s, i);
            && (!(i < |s| && s[i] in cs1) ==> !r1.Matched?)
            && (i < |s| && s[i] in cs1 && r1.NoMatch? ==> r2.Matched? ==> r2.end == i && s[i] !in fl)
  {
    hide GetFirst, Headfail, Eval;
    FirstSound(depth, fuel, rules, p1, AllBytes(), s, i);
    FirstSound(depth, fuel, rules, p2, fl, s, i);
    if Headfail(depth, rules, p1) {
      HeadfailNeverEmpty(depth, rules, p1, AllBytes());
      if !Eval(fuel, rules, p1, s, i).Diverged? { HeadfailExact(depth, fuel, rules, p1, s, i); }
    }
  }

  lemma {:induction false} SimulatesChoiceByTest(m: Machine, sc: Scope, fuel: nat, t: Tree, opt: bool,
                                                 fl: Charset, a: int, i: nat, stack: Stack, caps: seq<Capture>)
    requires i <= |m.s| && InScope(m, sc) && WellFormed(sc.rules, t) && t.TChoice?
    requires Loaded(m.code, a, CodeChoice(sc.depth, sc.rules, t.p1, t.p2, opt, fl), sc.positions)
    requires opt ==> fl == AllBytes() && stack.Push? && stack.top.Back?
    requires ChoiceByTest(sc.depth, sc.rules, t.p1, t.p2, fl)
    ensures Delivers(m, Running(a, i, stack, caps), a + |CodeChoice(sc.depth, sc.rules, t.p1, t.p2, opt, fl)|,
                     stack, caps, opt, fl, Eval(fuel, sc.rules, t, m.s, i))
    decreases fuel, t, 0
  {
    hide Joins, FailsOnto, Delivers, Loaded, InScope, Code, GetFirst, Headfail, ChoiceByTest, CodeTest, TestSize, TestOf, At, Guarded;
    var TChoice(p1, p2) := t;
    var f1 := FirstSet(GetFirst(sc.depth, sc.rules, p1, AllBytes()).cs, false);
    var c1 := CodeIn(sc, p1, false, TestOf(f1.cs), fl);
    var c2 := CodeIn(sc, p2, opt, NoTest, fl);
    var jmp := if p2.TTrue? then [] else Jump(IJmp, 2 + |c2|);
    var off := TestSize(f1.cs) + |c1| + |jmp|;
    var test := OptionalTest(f1, off);
    LoadedSplit(m.code, a, test + c1 + jmp, c2, sc.positions);
    LoadedSplit(m.code, a, test + c1, jmp, sc.positions);
    LoadedSplit(m.code, a, test, c1, sc.positions);
    OptionalTestRuns(m, sc, f1, off, a, i, stack, caps);
    var mid := a + |test| + |c1|;
    var b := a + off + |c2|;
    if !p2.TTrue? { LoadedJump(m.code, mid, IJmp, 2 + |c2|, sc.positions); }
    ChoiceByTestDecides(sc.depth, fuel, sc.rules, p1, p2, fl, m.s, i);
    var st := Running(a, i, stack, caps);
    var r1 := Eval(fuel, sc.rules, p1, m.s, i);
    var r2 := Eval(fuel, sc.rules, p2, m.s, i);
    if Passes(m, f1, i) {
      var next := Running(a + |test|, i, stack, caps);
      Simulates(m, sc, fuel, p1, false, TestOf(f1.cs), fl, a + |test|, i, stack, caps);
      DeliversAfter(m, st, next, mid, stack, caps, false, fl, r1);
      if r1.NoMatch? {
        DeliversNoMatch(m, st, mid, stack, caps, fl);
        FailsServes(m, st, b, stack, caps, opt, fl, i, r2);
      } else {
        EmptyTreeHasNoCode(sc, p2, opt, fl);
        AfterFirst(m, st, mid, |jmp|, |c2|, b, stack, caps, fl, r1, p2.TTrue?);
        DeliversInside(m, st, b, stack, caps, opt, fl, r1);
      }
    } else {
      NoTestGuards(m, i);
      Simulates(m, sc, fuel, p2, opt, NoTest, fl, a + off, i, stack, caps);
      DeliversAfter(m, st, Running(a + off, i, stack, caps), b, stack, caps, opt, fl, r2);
      DeliversDiverged(m, st, b, stack, caps, opt, fl);
    }
  }

  lemma DeliversNoMatch(m: Machine, st: State, b: int, stack: Stack, caps: seq<Capture>, fl: Charset)
    requires Delivers(m, st, b, stack, caps, false, fl, NoMatch)
    ensures FailsOnto(m, st, stack, caps)
  {
  }

  // The jump over the second alternative, left out when that is empty.
  lemma AfterFirst(m: Machine, st: State, mid: int, jmp: nat, n2: nat, b: int, stack: Stack, caps: seq<Capture>,
                   fl: Charset, r1: Outcome, emptyp2: bool)
    requires Delivers(m, st, mid, stack, caps, false, fl, r1) && b == mid + jmp + n2
    requires r1.Matched? ==> r1.end <= |m.s|
    requires if emptyp2 then jmp == 0 && n2 == 0 else jmp == 2 && At(m.code, mid, IJmp, 2 + n2)
    ensures Delivers(m, st, b, stack, caps, false, fl, r1)
  {
    hide Joins, FailsOnto, At;
    if r1.Matched? {
      if !emptyp2 {
        JmpRuns(m, mid, 2 + n2, r1.end, stack, caps + r1.caps);
        DeliversAt(m, st, mid, b, stack, caps, fl, r1);
      }
    }
  }

  lemma {:induction false} SimulatesOption(m: Machine, sc: Scope, fuel: nat, t: Tree,
                                           fl: Charset, a: int, i: nat, stack: Stack, caps: seq<Capture>)
    requires i <= |m.s| && InScope(m, sc) && WellFormed(sc.rules, t) && t.TChoice?
    requires Loaded(m.code, a, CodeChoice(sc.depth, sc.rules, t.p1, t.p2, true, fl), sc.positions)
    requires fl == AllBytes() && stack.Push? && stack.top.Back?
    requires !ChoiceByTest(sc.depth, sc.rules, t.p1, t.p2, fl) && t.p2.TTrue?
    ensures Delivers(m, Running(a, i, stack, caps), a + |CodeChoice(sc.depth, sc.rules, t.p1, t.p2, true, fl)|,
                     stack, caps, true, fl, Eval(fuel, sc.rules, t, m.s, i))
    decreases fuel, t, 0
  {
    hide Joins, FailsOnto, Delivers, Loaded, InScope, Code, ChoiceByTest, At, Guarded;
    var c1 := CodeIn(sc, t.p1, true, NoTest, AllBytes());
    LoadedSplit(m.code, a, Jump(IPartialCommit, 2), c1, sc.positions);
    LoadedJump(m.code, a, IPartialCommit, 2, sc.positions);
    var stack1 := Push(Back(stack.top.p, i, |caps|), stack.rest);
    NoTestGuards(m, i);
    Simulates(m, sc, fuel, t.p1, true, NoTest, AllBytes(), a + 2, i, stack1, caps);
    OptionDelivers(m, a, a + 2 + |c1|, i, stack, caps, Eval(fuel, sc.rules, t.p1, m.s, i));
  }

  lemma ChoiceLoaded(code: seq<Slot>, a: int, test: seq<Slot>, x: int, c1: seq<Slot>, y: int, c2: seq<Slot>,
                     positions: seq<int>)
    requires Loaded(code, a, test + Jump(IChoice, x) + c1 + Jump(ICommit, y) + c2, positions)
    ensures var q := a + |test|;
            && Loaded(code, a, test, positions) && At(code, q, IChoice, x) && Loaded(code, q + 2, c1, positions)
            && At(code, q + 2 + |c1|, ICommit, y) && Loaded(code, q + 2 + |c1| + 2, c2, positions)
  {
    hide Loaded, At;
    var choice, commit := Jump(IChoice, x), Jump(ICommit, y);
    LoadedSplit(code, a, test + choice + c1 + commit, c2, positions);
    LoadedSplit(code, a, test + choice + c1, commit, positions);
    LoadedSplit(code, a, test + choice, c1, positions);
    LoadedSplit(code, a, test, choice, positions);
    LoadedJump(code, a + |test|, IChoice, x, positions);
    LoadedJump(code, a + |test| + 2 + |c1|, ICommit, y, positions);
  }

  lemma {:induction false} SimulatesChoiceDefault(m: Machine, sc: Scope, fuel: nat, t: Tree, opt: bool,
                                                  fl: Charset, a: int, i: nat, stack: Stack, caps: seq<Capture>)
    requires i <= |m.s| && InScope(m, sc) && WellFormed(sc.rules, t) && t.TChoice?
    requires Loaded(m.code, a, CodeChoice(sc.depth, sc.rules, t.p1, t.p2, opt, fl), sc.positions)
    requires opt ==> fl == AllBytes() && stack.Push? && stack.top.Back?
    requires !ChoiceByTest(sc.depth, sc.rules, t.p1, t.p2, fl) && !(opt && t.p2.TTrue?)
    ensures Delivers(m, Running(a, i, stack, caps), a + |CodeChoice(sc.depth, sc.rules, t.p1, t.p2, opt, fl)|,
                     stack, caps, opt, fl, Eval(fuel, sc.rules, t, m.s, i))
    decreases fuel, t, 0
  {
    hide Joins, FailsOnto, Delivers, Loaded, InScope, Code, GetFirst, ChoiceByTest, CodeTest, TestSize, TestOf, At, Guarded;
    var TChoice(p1, p2) := t;
    var f1 := GetFirst(sc.depth, sc.rules, p1, AllBytes());
    var tt1 := if f1.empty then NoTest else TestOf(f1.cs);
    var c1 := CodeIn(sc, p1, p2.TTrue?, tt1, AllBytes());
    var c2 := CodeIn(sc, p2, opt, NoTest, fl);
    var off := TestSize(f1.cs) + 2 + |c1| + 2;
    var test := OptionalTest(f1, off);
    ChoiceLoaded(m.code, a, test, 2 + |c1| + 2, c1, 2 + |c2|, c2, sc.positions);
    OptionalTestRuns(m, sc, f1, off, a, i, stack, caps);
    var q := a + |test|;
    var st := Running(a, i, stack, caps);
    var l1 := q + 2 + |c1| + 2;
    var b := l1 + |c2|;
    var r1 := Eval(fuel, sc.rules, p1, m.s, i);
    var r2 := Eval(fuel, sc.rules, p2, m.s, i);
    NoTestGuards(m, i);
    Simulates(m, sc, fuel, p2, opt, NoTest, fl, l1, i, stack, caps);
    if Passes(m, f1, i) {
      Simulates(m, sc, fuel, p1, p2.TTrue?, tt1, AllBytes(), q + 2, i, Push(Back(l1, i, |caps|), stack), caps);
      EmptyTreeHasNoCode(sc, p2, opt, fl);
      ChoiceDelivers(m, q, |c1|, |c2|, i, stack, caps, p2.TTrue?, opt, fl, r1, r2);
      DeliversAfter(m, st, Running(q, i, stack, caps), b, stack, caps, opt, fl, if r1.NoMatch? then r2 else r1);
    } else {
      FirstSound(sc.depth, fuel, sc.rules, p1, AllBytes(), m.s, i);
      DeliversAfter(m, st, Running(l1, i, stack, caps), b, stack, caps, opt, fl, r2);
      DeliversDiverged(m, st, b, stack, caps, opt, fl);
    }
  }

  lemma EmptyTreeHasNoCode(sc: Scope, t: Tree, opt: bool, fl: Charset)
    ensures t.TTrue? ==> CodeIn(sc, t, opt, NoTest, fl) == []
  {
  }

  lemma DeliversDiverged(m: Machine, st: State, b: int, stack: Stack, caps: seq<Capture>, opt: bool, fl: Charset)
    requires opt ==> stack.Push? && stack.top.Back?
    ensures Delivers(m, st, b, stack, caps, opt, fl, Diverged)
  {
  }

  // -------------------------------------------------------------------------
  // Repetitions
  // -------------------------------------------------------------------------

  lemma {:induction false} SimulatesRep(m: Machine, sc: Scope, fuel: nat, t: Tree, opt: bool,
                                        fl: Charset, a: int, i: nat, stack: Stack, caps: seq<Capture>)
    requires i <= |m.s| && InScope(m, sc) && WellFormed(sc.rules, t) && t.TRep?
    requires Loaded(m.code, a, CodeRep(sc.depth, sc.rules, t.p, opt, fl), sc.positions)
    requires opt ==> fl == AllBytes() && stack.Push? && stack.top.Back?
    ensures Delivers(m, Running(a, i, stack, caps), a + |CodeRep(sc.depth, sc.rules, t.p, opt, fl)|,
                     stack, caps, opt, fl, Eval(fuel, sc.rules, t, m.s, i))
    decreases fuel, t, 3
  {
    hide Delivers, Loaded, Eval, InScope, Code, GetFirst, RepByTest, WellFormed, ToCharset;
    var st := Running(a, i, stack, caps);
    var b := a + |CodeRep(sc.depth, sc.rules, t.p, opt, fl)|;
    if ToCharset(t.p).Some? {
      SimulatesSpan(m, sc, fuel, t, opt, fl, a, i, stack, caps);
      DeliversInside(m, st, b, stack, caps, opt, fl, Eval(fuel, sc.rules, t, m.s, i));
    } else if RepByTest(sc.depth, sc.rules, t.p, fl) {
      LoopByTest(m, sc, fuel, t, fl, a, i, stack, caps);
      DeliversInside(m, st, b, stack, caps, opt, fl, Eval(fuel, sc.rules, t, m.s, i));
    } else {
      SimulatesRepDefault(m, sc, fuel, t, opt, fl, a, i, stack, caps);
    }
  }

  lemma {:induction false} SimulatesSpan(m: Machine, sc: Scope, fuel: nat, t: Tree, opt: bool,
                                         fl: Charset, a: int, i: nat, stack: Stack, caps: seq<Capture>)
    requires i <= |m.s| && t.TRep? && ToCharset(t.p).Some?
    requires Loaded(m.code, a, CodeRep(sc.depth, sc.rules, t.p, opt, fl), sc.positions)
    ensures Delivers(m, Running(a, i, stack, caps), a + |CodeRep(sc.depth, sc.rules, t.p, opt, fl)|,
                     stack, caps, false, fl, Eval(fuel, sc.rules, t, m.s, i))
  {
    hide Joins, FailsOnto, Loaded, Eval, ToCharset, Delivers;
    var cs := ToCharset(t.p).value;
    LoadedSplit(m.code, a, [Inst(ISpan, 0, 0)], Buffer(cs), sc.positions);
    LoadedInst(m.code, a, Inst(ISpan, 0, 0), sc.positions);
    SpanIsRep(m, sc, fuel, t, cs, a + 1, i);
    SpanRuns(m, a, i, stack, caps);
    DeliversNothing(m, Running(a, i, stack, caps), a + 1 + BUFF_SLOTS, SpanEnd(m.code, a + 1, m.s, i), stack, caps, false, fl);
    DeliversDiverged(m, Running(a, i, stack, caps), a + 1 + BUFF_SLOTS, stack, caps, false, fl);
  }

  // A span stops where repeating the one-character pattern stops.
  lemma {:induction false} SpanIsRep(m: Machine, sc: Scope, fuel: nat, t: Tree, cs: Charset, q: int, i: nat)
    requires i <= |m.s| && t.TRep? && ToCharset(t.p) == Some(cs) && Loaded(m.code, q, Buffer(cs), sc.positions)
    ensures var r := Eval(fuel, sc.rules, t, m.s, i);
            r.Diverged? || r == Matched(SpanEnd(m.code, q, m.s, i), [])
    decreases fuel
  {
    hide Loaded;
    if i < |m.s| {
      LoadedBuffer(m.code, q, cs, sc.positions, m.s[i]);
      if fuel > 0 && m.s[i] in cs { SpanIsRep(m, sc, fuel - 1, t, cs, q, i + 1); }
    }
  }

  lemma {:induction false} RepByTestDecides(depth: nat, fuel: nat, rules: seq<Tree>, p: Tree,
                                            fl: Charset, s: seq<Byte>, i: nat)
    requires i <= |s| && RepByTest(depth, rules, p, fl)
    ensures var cs := GetFirst(depth, rules, p, AllBytes()).cs;
            var r := Eval(fuel, rules, p, s, i);
            && (!(i < |s| && s[i] in cs) ==> !r.Matched?)
            && (i < |s| && s[i] in cs && r.NoMatch? ==> s[i] !in fl)
  {
    hide GetFirst, Headfail, Eval;
    FirstSound(depth, fuel, rules, p, AllBytes(), s, i);
    if Headfail(depth, rules, p) {
      HeadfailNeverEmpty(depth, rules, p, AllBytes());
      if !Eval(fuel, rules, p, s, i).Diverged? { HeadfailExact(depth, fuel, rules, p, s, i); }
    }
  }

  // The meaning of a repetition in terms of its first round.
  lemma RepRound(fuel: nat, rules: seq<Tree>, t: Tree, s: seq<Byte>, i: nat)
    requires i <= |s| && t.TRep?
    ensures var r1 := Eval(fuel, rules, t.p, s, i);
            var r := Eval(fuel, rules, t, s, i);
            && (r1.Diverged? ==> r.Diverged?)
            && (r1.NoMatch? ==> r == Matched(i, []))
            && (r1.Matched? && fuel == 0 ==> r.Diverged?)
            && (r1.Matched? && fuel > 0 ==> r == Then(r1.caps, Eval(fuel - 1, rules, t, s, r1.end)))
  {
  }

  // `L1: test -> L2; p; jmp L1; L2:`
  lemma {:induction false} LoopByTest(m: Machine, sc: Scope, fuel: nat, t: Tree,
                                      fl: Charset, a: int, i: nat, stack: Stack, caps: seq<Capture>)
    requires i <= |m.s| && InScope(m, sc) && WellFormed(sc.rules, t) && t.TRep?
    requires RepByTest(sc.depth, sc.rules, t.p, fl) && ToCharset(t.p).None?
    requires Loaded(m.code, a, CodeRep(sc.depth, sc.rules, t.p, false, fl), sc.positions)
    ensures Delivers(m, Running(a, i, stack, caps), a + |CodeRep(sc.depth, sc.rules, t.p, false, fl)|,
                     stack, caps, false, fl, Eval(fuel, sc.rules, t, m.s, i))
    decreases fuel, t, 0
  {
    hide Joins, FailsOnto, Delivers, Loaded, InScope, Code, GetFirst, RepByTest, CodeTest, TestSize, TestOf, At, Guarded, Eval;
    var f := FirstSet(GetFirst(sc.depth, sc.rules, t.p, AllBytes()).cs, false);
    var c := CodeIn(sc, t.p, false, TestOf(f.cs), AllBytes());
    var size := TestSize(f.cs) + |c|;
    var test := OptionalTest(f, size + 2);
    LoadedSplit(m.code, a, test + c, Jump(IJmp, -size), sc.positions);
    LoadedSplit(m.code, a, test, c, sc.positions);
    LoadedJump(m.code, a + |test + c|, IJmp, -size, sc.positions);
    OptionalTestRuns(m, sc, f, size + 2, a, i, stack, caps);
    RepByTestDecides(sc.depth, fuel, sc.rules, t.p, fl, m.s, i);
    RepRound(fuel, sc.rules, t, m.s, i);
    var st := Running(a, i, stack, caps);
    var b := a + size + 2;
    var r1 := Eval(fuel, sc.rules, t.p, m.s, i);
    DeliversDiverged(m, st, b, stack, caps, false, fl);
    if Passes(m, f, i) {
      var next := Running(a + |test|, i, stack, caps);
      Simulates(m, sc, fuel, t.p, false, TestOf(f.cs), AllBytes(), a + |test|, i, stack, caps);
      DeliversAfter(m, st, next, a + |test + c|, stack, caps, false, AllBytes(), r1);
      if r1.NoMatch? {
        DeliversNoMatch(m, st, a + |test + c|, stack, caps, AllBytes());
        FailsServes(m, st, b, stack, caps, false, fl, i, Matched(i, []));
      } else if r1.Matched? && fuel > 0 {
        DeliversFull(m, st, a + |test + c|, stack, caps, r1);
        JmpRuns(m, a + |test + c|, -size, r1.end, stack, caps + r1.caps);
        var again := Running(a, r1.end, stack, caps + r1.caps);
        JoinsTrans(m, st, Running(a + |test + c|, r1.end, stack, caps + r1.caps), again);
        LoopByTest(m, sc, fuel - 1, t, fl, a, r1.end, stack, caps + r1.caps);
        var r2 := Eval(fuel - 1, sc.rules, t, m.s, r1.end);
        DeliversAfter(m, st, again, b, stack, caps + r1.caps, false, fl, r2);
        SeqOutcome(m, st, b, stack, caps, r1.caps, false, fl, r2);
      }
    } else {
      DeliversNothing(m, st, b, i, stack, caps, false, fl);
    }
  }

  lemma LoopLoaded(code: seq<Slot>, a: int, test: seq<Slot>, op: Opcode, x: int, c: seq<Slot>, y: int, positions: seq<int>)
    requires Loaded(code, a, test + Jump(op, x) + c + Jump(IPartialCommit, y), positions) && op != IOpenCall
    ensures var q := a + |test|;
            && Loaded(code, a, test, positions) && At(code, q, op, x) && Loaded(code, q + 2, c, positions)
            && At(code, q + 2 + |c|, IPartialCommit, y)
  {
    hide Loaded, At;
    LoadedSplit(code, a, test + Jump(op, x) + c, Jump(IPartialCommit, y), positions);
    LoadedSplit(code, a, test + Jump(op, x), c, positions);
    LoadedSplit(code, a, test, Jump(op, x), positions);
    LoadedJump(code, a + |test|, op, x, positions);
    LoadedJump(code, a + |test| + 2 + |c|, IPartialCommit, y, positions);
  }

  lemma {:induction false} SimulatesRepDefault(m: Machine, sc: Scope, fuel: nat, t: Tree, opt: bool,
                                               fl: Charset, a: int, i: nat, stack: Stack, caps: seq<Capture>)
    requires i <= |m.s| && InScope(m, sc) && WellFormed(sc.rules, t) && t.TRep?
    requires ToCharset(t.p).None? && !RepByTest(sc.depth, sc.rules, t.p, fl)
    requires Loaded(m.code, a, CodeRep(sc.depth, sc.rules, t.p, opt, fl), sc.positions)
    requires opt ==> fl == AllBytes() && stack.Push? && stack.top.Back?
    ensures Delivers(m, Running(a, i, stack, caps), a + |CodeRep(sc.depth, sc.rules, t.p, opt, fl)|,
                     stack, caps, opt, fl, Eval(fuel, sc.rules, t, m.s, i))
    decreases fuel, t, 2
  {
    hide Joins, FailsOnto, Delivers, Loaded, InScope, Code, GetFirst, RepByTest, CodeTest, TestSize, TestOf, At, Guarded, Eval;
    var f := GetFirst(sc.depth, sc.rules, t.p, AllBytes());
    var c := CodeIn(sc, t.p, false, NoTest, AllBytes());
    var off := TestSize(f.cs) + 2 + |c| + 2;
    var op := if opt then IPartialCommit else IChoice;
    var disp := if opt then 2 else 2 + |c| + 2;
    var test := OptionalTest(f, off);
    LoopLoaded(m.code, a, test, op, disp, c, -|c|, sc.positions);
    OptionalTestRuns(m, sc, f, off, a, i, stack, caps);
    var q := a + |test|;
    var b := q + 2 + |c| + 2;
    var st := Running(a, i, stack, caps);
    var r := Eval(fuel, sc.rules, t, m.s, i);
    DeliversDiverged(m, st, b, stack, caps, opt, fl);
    RepRound(fuel, sc.rules, t, m.s, i);
    RepNeverFails(fuel, sc.rules, t, m.s, i);
    if Passes(m, f, i) {
      var dest := if opt then stack.top.p else b;
      var rest := if opt then stack.rest else stack;
      Loop(m, sc, fuel, t, c, q + 2, dest, i, rest, caps);
      LoopDelivers(m, q, op, disp, b, i, stack, caps, opt, fl, r);
      DeliversAfter(m, st, Running(q, i, stack, caps), b, stack, caps, opt, fl, r);
    } else {
      FirstSound(sc.depth, fuel, sc.rules, t.p, AllBytes(), m.s, i);
      DeliversNothing(m, st, b, i, stack, caps, opt, fl);
    }
  }

  lemma {:induction false} RepNeverFails(fuel: nat, rules: seq<Tree>, t: Tree, s: seq<Byte>, i: nat)
    requires i <= |s| && t.TRep?
    ensures !Eval(fuel, rules, t, s, i).NoMatch?
  {
    hide Eval;
    NofailSound(0, fuel, rules, t, s, i);
  }

  // The loop in its frame: `choice L2; L1: ...; L2:`, or `partialcommit L1; L1:
  // ...` inside an optional pattern.
  lemma LoopDelivers(m: Machine, q: int, op: Opcode, disp: int, b: int, i: nat, stack: Stack, caps: seq<Capture>,
                     opt: bool, fl: Charset, r: Outcome)
    requires i <= |m.s| && !r.NoMatch? && At(m.code, q, op, disp)
    requires opt ==> stack.Push? && stack.top.Back?
    requires if opt then op == IPartialCommit && disp == 2 else op == IChoice && q + disp == b
    requires var dest := if opt then stack.top.p else b;
             var rest := if opt then stack.rest else stack;
             r.Matched? ==> FailsOnto(m, Running(q + 2, i, Push(Back(dest, i, |caps|), rest), caps),
                                      Push(Back(dest, r.end, |caps + r.caps|), rest), caps + r.caps)
    ensures Delivers(m, Running(q, i, stack, caps), b, stack, caps, opt, fl, r)
  {
    hide Joins, FailsOnto, At;
    var st := Running(q, i, stack, caps);
    if opt {
      PartialCommitRuns(m, q, 2, stack.top.p, stack.top.s, stack.top.caplevel, i, stack.rest, caps);
    } else {
      ChoiceRuns(m, q, disp, i, stack, caps);
    }
    if r.Matched? {
      var dest := if opt then stack.top.p else b;
      var rest := if opt then stack.rest else stack;
      FailsAfter(m, st, Running(q + 2, i, Push(Back(dest, i, |caps|), rest), caps),
                 Push(Back(dest, r.end, |caps + r.caps|), rest), caps + r.caps);
      if !opt { FailsToEntry(m, st, b, r.end, stack, caps + r.caps); }
    }
  }

  // `L1: p; partialcommit L1`, entered with the entry for the way out on top.
  // The loop always leaves by failing onto that entry.
  lemma {:induction false} Loop(m: Machine, sc: Scope, fuel: nat, t: Tree, c: seq<Slot>, l1: int, dest: int,
                                i: nat, rest: Stack, caps: seq<Capture>)
    requires i <= |m.s| && InScope(m, sc) && WellFormed(sc.rules, t) && t.TRep?
    requires c == CodeIn(sc, t.p, false, NoTest, AllBytes()) && Loaded(m.code, l1, c, sc.positions)
    requires At(m.code, l1 + |c|, IPartialCommit, -|c|)
    ensures var r := Eval(fuel, sc.rules, t, m.s, i);
            r.Matched? ==> FailsOnto(m, Running(l1, i, Push(Back(dest, i, |caps|), rest), caps),
                                     Push(Back(dest, r.end, |caps + r.caps|), rest), caps + r.caps)
    decreases fuel, t, 0
  {
    hide Joins, FailsOnto, Delivers, Loaded, InScope, Code, At, Guarded, Eval;
    var stack := Push(Back(dest, i, |caps|), rest);
    var st := Running(l1, i, stack, caps);
    NoTestGuards(m, i);
    Simulates(m, sc, fuel, t.p, false, NoTest, AllBytes(), l1, i, stack, caps);
    RepRound(fuel, sc.rules, t, m.s, i);
    var r1 := Eval(fuel, sc.rules, t.p, m.s, i);
    if r1.NoMatch? {
      assert caps + [] == caps;
      DeliversNoMatch(m, st, l1 + |c|, stack, caps, AllBytes());
    } else if r1.Matched? && fuel > 0 {
      var all := caps + r1.caps;
      DeliversFull(m, st, l1 + |c|, stack, caps, r1);
      PartialCommitRuns(m, l1 + |c|, -|c|, dest, i, |caps|, r1.end, rest, all);
      var again := Running(l1, r1.end, Push(Back(dest, r1.end, |all|), rest), all);
      JoinsTrans(m, st, Running(l1 + |c|, r1.end, stack, all), again);
      Loop(m, sc, fuel - 1, t, c, l1, dest, r1.end, rest, all);
      var r2 := Eval(fuel - 1, sc.rules, t, m.s, r1.end);
      if r2.Matched? {
        assert all + r2.caps == caps + (r1.caps + r2.caps);
        FailsAfter(m, st, again, Push(Back(dest, r2.end, |all + r2.caps|), rest), all + r2.caps);
      }
    }
  }

  // -------------------------------------------------------------------------
  // Predicates, captures, calls
  // -------------------------------------------------------------------------

  lemma {:induction false} SimulatesBehind(m: Machine, sc: Scope, fuel: nat, t: Tree, fl: Charset,
                                           a: int, i: nat, stack: Stack, caps: seq<Capture>)
    requires i <= |m.s| && InScope(m, sc) && WellFormed(sc.rules, t) && t.TBehind?
    requires Loaded(m.code, a, CodeIn(sc, t, false, NoTest, fl), sc.positions)
    ensures Delivers(m, Running(a, i, stack, caps), a + |CodeIn(sc, t, false, NoTest, fl)|,
                     stack, caps, false, fl, Eval(fuel, sc.rules, t, m.s, i))
    decreases fuel, t, 0
  {
    hide Joins, FailsOnto, Loaded, InScope, FixedLen, Guarded, Code;
    CodeShape(sc, t, false, NoTest, fl);
    var TBehind(n, p) := t;
    var back := if n > 0 then [Inst(IBehind, n, 0)] else [];
    var c := CodeIn(sc, p, false, NoTest, AllBytes());
    LoadedSplit(m.code, a, back, c, sc.positions);
    var st := Running(a, i, stack, caps);
    var b := a + |back| + |c|;
    if n > 0 {
      LoadedInst(m.code, a, Inst(IBehind, n, 0), sc.positions);
      BehindRuns(m, a, n, i, stack, caps);
    } else {
      JoinsSelf(m, st);
    }
    if n <= i {
      NoTestGuards(m, i - n);
      Simulates(m, sc, fuel, p, false, NoTest, AllBytes(), a + |back|, i - n, stack, caps);
      FixedLenSound(fuel, sc.rules, NoMarks(|sc.rules|), p, m.s, i - n);
      DeliversAfter(m, st, Running(a + |back|, i - n, stack, caps), b, stack, caps, false, AllBytes(),
                    Eval(fuel, sc.rules, p, m.s, i - n));
    }
  }

  lemma {:induction false} SimulatesNot(m: Machine, sc: Scope, fuel: nat, t: Tree, fl: Charset,
                                        a: int, i: nat, stack: Stack, caps: seq<Capture>)
    requires i <= |m.s| && InScope(m, sc) && WellFormed(sc.rules, t) && t.TNot?
    requires Loaded(m.code, a, CodeNot(sc.depth, sc.rules, t.p), sc.positions)
    ensures Delivers(m, Running(a, i, stack, caps), a + |CodeNot(sc.depth, sc.rules, t.p)|,
                     stack, caps, false, fl, Eval(fuel, sc.rules, t, m.s, i))
    decreases fuel, t, 0
  {
    hide Joins, FailsOnto, Delivers, Loaded, InScope, Code, GetFirst, Headfail, CodeTest, TestSize, TestOf, At, Guarded;
    var p := t.p;
    var f := GetFirst(sc.depth, sc.rules, p, AllBytes());
    var c := CodeIn(sc, p, false, NoTest, AllBytes());
    var headfail := Headfail(sc.depth, sc.rules, p);
    var start := Jump(IChoice, 2 + |c| + 1);
    var body := if headfail then [Inst(IFail, 0, 0)] else start + c + [Inst(IFailTwice, 0, 0)];
    var off := TestSize(f.cs) + |body|;
    var test := OptionalTest(f, off);
    LoadedSplit(m.code, a, test, body, sc.positions);
    OptionalTestRuns(m, sc, f, off, a, i, stack, caps);
    var st := Running(a, i, stack, caps);
    var q := a + |test|;
    var b := q + |body|;
    var r1 := Eval(fuel, sc.rules, p, m.s, i);
    FirstSound(sc.depth, fuel, sc.rules, p, AllBytes(), m.s, i);
    DeliversDiverged(m, st, b, stack, caps, false, fl);
    if headfail { HeadfailNeverEmpty(sc.depth, sc.rules, p, AllBytes()); }
    if !Passes(m, f, i) {
      DeliversNothing(m, st, b, i, stack, caps, false, fl);
    } else if headfail {
      LoadedInst(m.code, q, Inst(IFail, 0, 0), sc.positions);
      FailRuns(m, q, i, stack, caps);
      FailsAfter(m, st, Running(q, i, stack, caps), stack, caps);
      FailsServes(m, st, b, stack, caps, false, fl, i, NoMatch);
      if !r1.Diverged? { HeadfailExact(sc.depth, fuel, sc.rules, p, m.s, i); }
    } else {
      LoadedSplit(m.code, q, start + c, [Inst(IFailTwice, 0, 0)], sc.positions);
      LoadedSplit(m.code, q, start, c, sc.positions);
      LoadedJump(m.code, q, IChoice, 2 + |c| + 1, sc.positions);
      LoadedInst(m.code, q + 2 + |c|, Inst(IFailTwice, 0, 0), sc.positions);
      NoTestGuards(m, i);
      Simulates(m, sc, fuel, p, false, NoTest, AllBytes(), q + 2, i, Push(Back(b, i, |caps|), stack), caps);
      NotDelivers(m, q, |c|, i, stack, caps, fl, r1);
      DeliversAfter(m, st, Running(q, i, stack, caps), b, stack, caps, false, fl, Eval(fuel, sc.rules, t, m.s, i));
    }
  }

  lemma AndLoaded(code: seq<Slot>, a: int, x: int, c: seq<Slot>, y: int, positions: seq<int>)
    requires Loaded(code, a, Jump(IChoice, x) + c + Jump(IBackCommit, y) + [Inst(IFail, 0, 0)], positions)
    ensures At(code, a, IChoice, x) && Loaded(code, a + 2, c, positions) && At(code, a + 2 + |c|, IBackCommit, y)
    ensures IsOp(code, a + 2 + |c| + 2, IFail)
  {
    hide Loaded, At;
    var start, back := Jump(IChoice, x), Jump(IBackCommit, y);
    LoadedSplit(code, a, start + c + back, [Inst(IFail, 0, 0)], positions);
    LoadedSplit(code, a, start + c, back, positions);
    LoadedSplit(code, a, start, c, positions);
    LoadedJump(code, a, IChoice, x, positions);
    LoadedJump(code, a + 2 + |c|, IBackCommit, y, positions);
    LoadedInst(code, a + 2 + |c| + 2, Inst(IFail, 0, 0), positions);
  }

  lemma {:induction false} SimulatesAnd(m: Machine, sc: Scope, fuel: nat, t: Tree, tt: Test, fl: Charset,
                                        a: int, i: nat, stack: Stack, caps: seq<Capture>)
    requires i <= |m.s| && InScope(m, sc) && WellFormed(sc.rules, t) && t.TAnd? && Guarded(m, tt, i)
    requires Loaded(m.code, a, CodeAnd(sc.depth, sc.rules, t.p, tt), sc.positions)
    ensures Delivers(m, Running(a, i, stack, caps), a + |CodeAnd(sc.depth, sc.rules, t.p, tt)|,
                     stack, caps, false, fl, Eval(fuel, sc.rules, t, m.s, i))
    decreases fuel, t, 0
  {
    hide Joins, FailsOnto, Delivers, Loaded, InScope, Code, FixedLen, HasCaptures, At, Guarded;
    var p := t.p;
    var n := Length(sc.rules, p);
    var c := CodeIn(sc, p, false, tt, AllBytes());
    var st := Running(a, i, stack, caps);
    var r1 := Eval(fuel, sc.rules, p, m.s, i);
    if 0 <= n <= MAXBEHIND && !Captures(sc.rules, p) {
      var back := if n > 0 then [Inst(IBehind, n, 0)] else [];
      LoadedSplit(m.code, a, c, back, sc.positions);
      if n > 0 { LoadedInst(m.code, a + |c|, Inst(IBehind, n, 0), sc.positions); }
      Simulates(m, sc, fuel, p, false, tt, AllBytes(), a, i, stack, caps);
      FixedLenSound(fuel, sc.rules, NoMarks(|sc.rules|), p, m.s, i);
      HasCapturesSound(fuel, sc.rules, p, m.s, i);
      AndByLengthDelivers(m, st, a + |c|, n, i, stack, caps, fl, r1);
    } else {
      AndLoaded(m.code, a, 2 + |c| + 2, c, 3, sc.positions);
      Simulates(m, sc, fuel, p, false, tt, AllBytes(), a + 2, i, Push(Back(a + 2 + |c| + 2, i, |caps|), stack), caps);
      AndDelivers(m, a, |c|, i, stack, caps, fl, r1);
    }
  }

  lemma {:induction false} SimulatesCapture(m: Machine, sc: Scope, fuel: nat, t: Tree,
                                            tt: Test, fl: Charset, a: int, i: nat, stack: Stack, caps: seq<Capture>)
    requires i <= |m.s| && InScope(m, sc) && WellFormed(sc.rules, t) && t.TCapture? && Guarded(m, tt, i)
    requires Loaded(m.code, a, CodeCapture(sc.depth, sc.rules, t.kind, t.key, t.p, tt, fl), sc.positions)
    ensures Delivers(m, Running(a, i, stack, caps), a + |CodeCapture(sc.depth, sc.rules, t.kind, t.key, t.p, tt, fl)|,
                     stack, caps, false, fl, Eval(fuel, sc.rules, t, m.s, i))
    decreases fuel, t, 0
  {
    hide Joins, FailsOnto, Delivers, Loaded, InScope, Code, FixedLen, HasCaptures, Enclose, Guarded;
    var TCapture(kind, key, p) := t;
    var len := Length(sc.rules, p);
    var c := CodeIn(sc, p, false, tt, fl);
    var st := Running(a, i, stack, caps);
    var r1 := Eval(fuel, sc.rules, p, m.s, i);
    if 0 <= len <= MAXOFF && !Captures(sc.rules, p) {
      var close := Inst(IFullCapture, kind + 16 * len, key);
      LoadedSplit(m.code, a, c, [close], sc.positions);
      LoadedInst(m.code, a + |c|, close, sc.positions);
      Simulates(m, sc, fuel, p, false, tt, fl, a, i, stack, caps);
      FixedLenSound(fuel, sc.rules, NoMarks(|sc.rules|), p, m.s, i);
      HasCapturesSound(fuel, sc.rules, p, m.s, i);
      FullCaptureDelivers(m, st, a + |c|, kind, key, len, i, stack, caps, fl, r1);
    } else {
      var open := Inst(IOpenCapture, kind, key);
      var close := Inst(ICloseCapture, C_CLOSE, 0);
      LoadedSplit(m.code, a, [open] + c, [close], sc.positions);
      LoadedSplit(m.code, a, [open], c, sc.positions);
      LoadedInst(m.code, a, open, sc.positions);
      LoadedInst(m.code, a + 1 + |c|, close, sc.positions);
      LastCaptureClosed(fuel, sc.rules, p, m.s, i);
      Simulates(m, sc, fuel, p, false, tt, fl, a + 1, i, stack, caps + [Capture(i, key, kind, 0)]);
      CaptureDelivers(m, a, |c|, kind, key, i, stack, caps, fl, r1);
    }
  }

  lemma {:induction false} SimulatesCall(m: Machine, sc: Scope, fuel: nat, t: Tree, fl: Charset,
                                         a: int, i: nat, stack: Stack, caps: seq<Capture>)
    requires i <= |m.s| && InScope(m, sc) && t.TCall?
    requires Loaded(m.code, a, [Inst(IOpenCall, 0, t.rule), Unset], sc.positions)
    ensures Delivers(m, Running(a, i, stack, caps), a + 2, stack, caps, false, fl,
                     Eval(fuel, sc.rules, t, m.s, i))
    decreases fuel, t, 0
  {
    hide Joins, FailsOnto, Delivers, Code, Guarded, CallsRule;
    var k := t.rule;
    DeliversDiverged(m, Running(a, i, stack, caps), a + 2, stack, caps, false, fl);
    if fuel > 0 && k < |sc.rules| {
      var pos := sc.positions[k];
      assert RuleLoaded(m, sc, k);
      assert SlotFits(m.code, a + 0, [Inst(IOpenCall, 0, k), Unset][0], sc.positions);
      var c := RuleCode(sc, k);
      LoadedSplit(m.code, pos, c, [Inst(IRet, 0, 0)], sc.positions);
      LoadedInst(m.code, pos + |c|, Inst(IRet, 0, 0), sc.positions);
      var stack1 := if IsOp(m.code, a, ICall) then Push(Ret(a + 2), stack) else stack;
      NoTestGuards(m, i);
      Simulates(m, sc, fuel - 1, sc.rules[k], false, NoTest, AllBytes(), pos, i, stack1, caps);
      CallDelivers(m, a, pos, pos + |c|, i, stack, caps, fl, Eval(fuel - 1, sc.rules, sc.rules[k], m.s, i));
    }
  }

  // `call L1; jmp L2; L1: ...; L2:`
  lemma FrameDelivers(m: Machine, a: int, ret: int, n: nat, i: nat, stack: Stack, caps: seq<Capture>, fl: Charset, r: Outcome)
    requires i <= |m.s| && (r.Matched? ==> r.end <= |m.s|)
    requires At(m.code, a, ICall, 4) && At(m.code, a + 2, IJmp, 2 + n) && IsOp(m.code, ret, IRet)
    requires Delivers(m, Running(a + 4, i, Push(Ret(a + 2), stack), caps), ret, Push(Ret(a + 2), stack), caps,
                      false, AllBytes(), r)
    ensures Delivers(m, Running(a, i, stack, caps), a + 4 + n, stack, caps, false, fl, r)
  {
    hide Joins, FailsOnto;
    CallDelivers(m, a, a + 4, ret, i, stack, caps, AllBytes(), r);
    var st := Running(a, i, stack, caps);
    if r.Matched? {
      JmpRuns(m, a + 2, 2 + n, r.end, stack, caps + r.caps);
      DeliversAt(m, st, a + 2, a + 4 + n, stack, caps, AllBytes(), r);
    }
  }

  lemma {:induction false} SimulatesGrammar(m: Machine, sc: Scope, fuel: nat, t: Tree, fl: Charset,
                                            a: int, i: nat, stack: Stack, caps: seq<Capture>)
    requires i <= |m.s| && WellFormed(sc.rules, t) && t.TGrammar?
    requires Loaded(m.code, a, CodeGrammar(sc.depth, t.rules), sc.positions)
    ensures Delivers(m, Running(a, i, stack, caps), a + |CodeGrammar(sc.depth, t.rules)|, stack, caps, false, fl,
                     Eval(fuel, sc.rules, t, m.s, i))
    decreases fuel, t, 0
  {
    hide Joins, FailsOnto, Delivers, Loaded, Code, CodeRules, CorrectCalls, At, Guarded, InScope;
    var rs := t.rules;
    DeliversDiverged(m, Running(a, i, stack, caps), a + |CodeGrammar(sc.depth, rs)|, stack, caps, false, fl);
    if |rs| > 0 {
      var body := CodeRules(sc.depth, rs, 0);
      var positions := Positions(sc.depth, rs, 0, 0);
      var inner := Scope(sc.depth, rs, Shifted(positions, a + 4));
      GrammarInScope(m, sc, t, a);
      var head := Jump(ICall, 4) + Jump(IJmp, 2 + |body|);
      LoadedSplit(m.code, a, head, CorrectCalls(body, positions, 0), sc.positions);
      LoadedSplit(m.code, a, Jump(ICall, 4), Jump(IJmp, 2 + |body|), sc.positions);
      LoadedJump(m.code, a, ICall, 4, sc.positions);
      LoadedJump(m.code, a + 2, IJmp, 2 + |body|, sc.positions);
      InScopeRule(m, inner, 0);
      var c := RuleCode(inner, 0);
      LoadedSplit(m.code, a + 4, c, [Inst(IRet, 0, 0)], inner.positions);
      LoadedInst(m.code, a + 4 + |c|, Inst(IRet, 0, 0), inner.positions);
      NoTestGuards(m, i);
      Simulates(m, inner, fuel, rs[0], false, NoTest, AllBytes(), a + 4, i, Push(Ret(a + 2), stack), caps);
      FrameDelivers(m, a, a + 4 + |c|, |body|, i, stack, caps, fl, Eval(fuel, rs, rs[0], m.s, i));
    }
  }

  lemma InScopeRule(m: Machine, sc: Scope, k: nat)
    requires InScope(m, sc) && k < |sc.rules|
    ensures |sc.positions| == |sc.rules| && RuleLoaded(m, sc, k)
  {
  }

  lemma GrammarInScope(m: Machine, sc: Scope, t: Tree, a: int)
    requires WellFormed(sc.rules, t) && t.TGrammar?
    requires Loaded(m.code, a, CodeGrammar(sc.depth, t.rules), sc.positions)
    ensures |Positions(sc.depth, t.rules, 0, 0)| == |t.rules|
    ensures InScope(m, Scope(sc.depth, t.rules, Shifted(Positions(sc.depth, t.rules, 0, 0), a + 4)))
  {
    hide Loaded, CodeRules, Code, CorrectCalls, InScope;
    var body := CodeRules(sc.depth, t.rules, 0);
    var positions := Positions(sc.depth, t.rules, 0, 0);
    LoadedSplit(m.code, a, Jump(ICall, 4) + Jump(IJmp, 2 + |body|), CorrectCalls(body, positions, 0), sc.positions);
    CorrectedInScope(m, sc.depth, t, a + 4, sc.positions);
  }

  // The corrected rules of a grammar, wherever they are placed.
  lemma CorrectedInScope(m: Machine, depth: nat, t: Tree, base: int, outer: seq<int>)
    requires WellFormed([], t) && t.TGrammar?
    requires Loaded(m.code, base, CorrectCalls(CodeRules(depth, t.rules, 0), Positions(depth, t.rules, 0, 0), 0), outer)
    ensures |Positions(depth, t.rules, 0, 0)| == |t.rules|
    ensures var positions := Shifted(Positions(depth, t.rules, 0, 0), base);
            && InScope(m, Scope(depth, t.rules, positions))
            && Loaded(m.code, base, CodeRules(depth, t.rules, 0), positions)
  {
    hide Loaded, CodeRules, Code, CorrectCalls, Laid;
    var rs := t.rules;
    var body := CodeRules(depth, rs, 0);
    var positions := Positions(depth, rs, 0, 0);
    var inner := Scope(depth, rs, Shifted(positions, base));
    PositionsCount(depth, rs, 0, 0);
    CodeRulesLaid(depth, rs, 0);
    CorrectedLoaded(m.code, base, body, positions, outer);
    forall k | 0 <= k < |rs| ensures RuleLoaded(m, inner, k) {
      RulesLoaded(m.code, depth, rs, 0, 0, base, inner.positions, k);
    }
  }
}
