// In the code of an accepted pattern every chain of jumps comes to an end, so
// the loop of `finaltarget` does. It is the machine that shows it: a chain
// without an end would keep it from ever leaving.

module Jumps {
  import opened PegSyntax
  import opened Analysis
  import opened Vm
  import opened CodeGen
  import opened Calls
  import opened CompilerCorrect
  import opened Termination
  import opened Chains

  // -------------------------------------------------------------------------
  // The start of a rule: the machine gets away from there
  // -------------------------------------------------------------------------

  lemma {:induction false} NeverLeaves(m: Machine, q: int, n: nat, i: nat, stack: Stack, caps: seq<Capture>)
    requires i <= |m.s| && !Ends(m.code, q)
    ensures Run(m, Running(q, i, stack, caps), n) == Running(FinalTarget(m.code, q, n), i, stack, caps)
    decreases n
  {
    assert FinalTarget(m.code, q, 0) == q;
    if n > 0 {
      if Ends(m.code, q + m.code[q + 1].off) { JumpEnds(m.code, q); }
      NeverLeaves(m, q + m.code[q + 1].off, n - 1, i, stack, caps);
    }
  }

  // A machine that comes to a final state, or to an address that is no jump,
  // has not been in a chain without end.
  lemma LeavesFinally(m: Machine, q: int, i: nat, stack: Stack, caps: seq<Capture>, end: State)
    requires i <= |m.s| && Joins(m, Running(q, i, stack, caps), end) && Final(end)
    ensures Ends(m.code, q)
  {
    if !Ends(m.code, q) {
      var n := JoinsFinal(m, Running(q, i, stack, caps), end);
      NeverLeaves(m, q, n, i, stack, caps);
      assert false;
    }
  }

  lemma {:induction false} RuleStartEnds(code: seq<Slot>, sc: Scope, below: nat, k: nat)
    requires InScope(Machine(code, []), sc) && GrammarSafe(below, sc.rules) && k in UsedRules(sc.rules)
    ensures k < |sc.positions| && Ends(code, sc.positions[k])
  {
    hide Joins, FailsOnto, Code, Eval, Loaded, Ends, UsedRules, LeftCalls, CheckLoops;
    var m := Machine(code, []);
    var pos := sc.positions[k];
    SizeAt(sc.rules, k);
    var fuel := Halts(SizeAll(sc.rules), MAXRULES, below, sc.rules, sc.rules[k], [], 0);
    assert RuleLoaded(m, sc, k);
    var c := RuleCode(sc, k);
    LoadedSplit(code, pos, c, [Inst(IRet, 0, 0)], sc.positions);
    LoadedInst(code, pos + |c|, Inst(IRet, 0, 0), sc.positions);
    var stack := Push(Back(GIVEUP, 0, 0), Bottom);
    NoTestGuards(m, 0);
    Simulates(m, sc, fuel, sc.rules[k], false, NoTest, AllBytes(), pos, 0, stack, []);
    RuleOutcome(m, pos, pos + |c|, Eval(fuel, sc.rules, sc.rules[k], [], 0));
  }

  lemma RuleOutcome(m: Machine, pos: int, ret: int, r: Outcome)
    requires !r.Diverged? && IsOp(m.code, ret, IRet) && (r.Matched? ==> r.end <= |m.s|)
    requires Delivers(m, Running(pos, 0, Push(Back(GIVEUP, 0, 0), Bottom), []), ret, Push(Back(GIVEUP, 0, 0), Bottom), [],
                      false, AllBytes(), r)
    ensures Ends(m.code, pos)
  {
    hide Joins, FailsOnto, Ends;
    var stack := Push(Back(GIVEUP, 0, 0), Bottom);
    var st := Running(pos, 0, stack, []);
    if r.Matched? {
      DeliversFull(m, st, ret, stack, [], r);
      JoinsStep(m, Running(ret, r.end, stack, [] + r.caps));
      JoinsTrans(m, st, Running(ret, r.end, stack, [] + r.caps), Stuck);
      LeavesFinally(m, pos, 0, stack, [], Stuck);
    } else {
      FailsToEntry(m, st, GIVEUP, 0, Bottom, []);
      JoinsStep(m, Running(GIVEUP, 0, Bottom, []));
      JoinsTrans(m, st, Running(GIVEUP, 0, Bottom, []), GaveUp);
      LeavesFinally(m, pos, 0, stack, [], GaveUp);
    }
  }

  // -------------------------------------------------------------------------
  // All other jumps go forward, or back to the test of a loop
  // -------------------------------------------------------------------------

  lemma PlainEnds(code: seq<Slot>, a: int, part: seq<Slot>, positions: seq<int>)
    requires Loaded(code, a, part, positions) && Ends(code, a + |part|)
    requires forall x :: 0 <= x < |part| ==> !part[x].Unset? && !IsOp(part, x, IJmp) && !IsOp(part, x, IOpenCall)
    ensures EndsIn(code, a, a + |part|)
  {
    hide Ends;
    forall x | a <= x < a + |part| ensures Ends(code, x) {
      assert SlotFits(code, a + (x - a), part[x - a], positions);
      NoJumpEnds(code, x);
    }
  }

  lemma TestEnds(code: seq<Slot>, a: int, cs: Charset, off: int, positions: seq<int>)
    requires Loaded(code, a, CodeTest(cs, off), positions) && Ends(code, a + off)
    ensures forall x :: a <= x < a + TestSize(cs) ==> Ends(code, x)
  {
    hide Ends;
    var part := CodeTest(cs, off);
    forall x | a <= x < a + TestSize(cs) ensures Ends(code, x) {
      assert SlotFits(code, a + (x - a), part[x - a], positions);
      if IsJump(code, x) {
        assert x == a && SlotFits(code, a + 1, part[1], positions);
        JumpEnds(code, x);
      } else {
        NoJumpEnds(code, x);
      }
    }
  }

  lemma JumpSlotsEnd(code: seq<Slot>, a: int, op: Opcode, off: int, positions: seq<int>)
    requires Loaded(code, a, Jump(op, off), positions) && op != IOpenCall
    requires op == IJmp ==> Ends(code, a + off)
    ensures Ends(code, a) && Ends(code, a + 1)
  {
    hide Ends;
    LoadedJump(code, a, op, off, positions);
    NoJumpEnds(code, a + 1);
    if op == IJmp { JumpEnds(code, a); } else { NoJumpEnds(code, a); }
  }

  lemma CallEnds(code: seq<Slot>, a: int, k: nat, positions: seq<int>)
    requires Loaded(code, a, [Inst(IOpenCall, 0, k), Unset], positions) && Ends(code, a + 2)
    requires k < |positions| && Ends(code, positions[k])
    ensures EndsIn(code, a, a + 2)
  {
    hide Ends;
    assert SlotFits(code, a + 0, [Inst(IOpenCall, 0, k), Unset][0], positions);
    NoJumpEnds(code, a + 1);
    if IsJump(code, a) { JumpEnds(code, a); } else { NoJumpEnds(code, a); }
  }

  // Calls from `t` go to places where chains end.
  ghost predicate CalleesEnd(code: seq<Slot>, sc: Scope, t: Tree) {
    forall k :: k in CalledBy(t) ==> k < |sc.positions| && Ends(code, sc.positions[k])
  }

  ghost predicate Fine(code: seq<Slot>, sc: Scope, below: nat, t: Tree) {
    && InScope(Machine(code, []), sc) && WellFormed(sc.rules, t) && Accepted(true, below, t)
    && CalleesEnd(code, sc, t)
  }

  // The same for the parts of a tree.
  lemma FineParts(code: seq<Slot>, sc: Scope, below: nat, t: Tree)
    requires Fine(code, sc, below, t)
    ensures t.TSeq? || t.TChoice? ==> Fine(code, sc, below, t.p1) && Fine(code, sc, below, t.p2)
    ensures t.TRep? || t.TNot? || t.TAnd? || t.TBehind? || t.TCapture? ==> Fine(code, sc, below, t.p)
  {
    hide InScope, Ends, CalleesEnd;
    match t
    case TSeq(p1, p2) => FewerCallees(code, sc, p1, t); FewerCallees(code, sc, p2, t);
    case TChoice(p1, p2) => FewerCallees(code, sc, p1, t); FewerCallees(code, sc, p2, t);
    case TRep(p) => FewerCallees(code, sc, p, t);
    case TNot(p) => FewerCallees(code, sc, p, t);
    case TAnd(p) => FewerCallees(code, sc, p, t);
    case TBehind(_, p) => FewerCallees(code, sc, p, t);
    case TCapture(_, _, p) => FewerCallees(code, sc, p, t);
    case _ =>
  }

  lemma FewerCallees(code: seq<Slot>, sc: Scope, p: Tree, t: Tree)
    requires CalleesEnd(code, sc, t) && CalledBy(p) <= CalledBy(t)
    ensures CalleesEnd(code, sc, p)
  {
    hide Ends;
  }

  lemma {:induction false} ChainsEnd(code: seq<Slot>, sc: Scope, below: nat, t: Tree, opt: bool, tt: Test, fl: Charset, a: int)
    requires Fine(code, sc, below, t)
    requires Loaded(code, a, CodeIn(sc, t, opt, tt, fl), sc.positions)
    requires Ends(code, a + |CodeIn(sc, t, opt, tt, fl)|)
    ensures EndsIn(code, a, a + |CodeIn(sc, t, opt, tt, fl)|)
    decreases t, 3
  {
    hide Loaded, Ends, EndsIn, Fine, GetFirst, FixedLen, HasCaptures, Code, CodeNot, CodeAnd, CodeCapture, CodeGrammar;
    var c := CodeIn(sc, t, opt, tt, fl);
    CodeShape(sc, t, opt, tt, fl);
    match t
    case TSeq(_, _) => SeqChainsEnd(code, sc, below, t, opt, tt, fl, a);
    case TChoice(_, _) => ChoiceChainsEnd(code, sc, below, t, opt, fl, a, c);
    case TRep(_) => RepChainsEnd(code, sc, below, t, opt, fl, a, c);
    case TNot(_) => NotChainsEnd(code, sc, below, t, a, c);
    case TAnd(_) => AndChainsEnd(code, sc, below, t, tt, a, c);
    case TCapture(_, _, _) => CaptureChainsEnd(code, sc, below, t, tt, fl, a, c);
    case TBehind(_, _) => BehindChainsEnd(code, sc, below, t, fl, a, c);
    case TGrammar(_) => GrammarChainsEnd(code, sc, below, t, a, c);
    case _ => LeafChainsEnd(code, sc, below, t, opt, tt, fl, a);
  }

  lemma LeafChainsEnd(code: seq<Slot>, sc: Scope, below: nat, t: Tree, opt: bool, tt: Test, fl: Charset, a: int)
    requires Fine(code, sc, below, t)
    requires t.TChar? || t.TSet? || t.TAny? || t.TTrue? || t.TFalse? || t.TCall?
    requires Loaded(code, a, CodeIn(sc, t, opt, tt, fl), sc.positions)
    requires Ends(code, a + |CodeIn(sc, t, opt, tt, fl)|)
    ensures EndsIn(code, a, a + |CodeIn(sc, t, opt, tt, fl)|)
  {
    hide Loaded, Ends, InScope, WellFormed, Accepted;
    if t.TCall? {
      assert t.rule in CalledBy(t);
      CallEnds(code, a, t.rule, sc.positions);
    } else {
      PlainEnds(code, a, CodeIn(sc, t, opt, tt, fl), sc.positions);
    }
  }

  lemma {:induction false} SeqChainsEnd(code: seq<Slot>, sc: Scope, below: nat, t: Tree, opt: bool, tt: Test, fl: Charset, a: int)
    requires Fine(code, sc, below, t) && t.TSeq?
    requires Loaded(code, a, CodeIn(sc, t, opt, tt, fl), sc.positions)
    requires Ends(code, a + |CodeIn(sc, t, opt, tt, fl)|)
    ensures EndsIn(code, a, a + |CodeIn(sc, t, opt, tt, fl)|)
    decreases t, 2
  {
    hide Fine, Loaded, Ends, GetFirst, FixedLen, InScope;
    FineParts(code, sc, below, t);
    var TSeq(p1, p2) := t;
    var fl1 := if NeedFollow(p1) then GetFirst(sc.depth, sc.rules, p2, fl).cs else AllBytes();
    var tt2 := if Length(sc.rules, p1) != 0 then NoTest else tt;
    var c1 := CodeIn(sc, p1, false, tt, fl1);
    var c2 := CodeIn(sc, p2, opt, tt2, fl);
    assert CodeIn(sc, t, opt, tt, fl) == c1 + c2;
    LoadedSplit(code, a, c1, c2, sc.positions);
    ChainsEnd(code, sc, below, p2, opt, tt2, fl, a + |c1|);
    ChainsEnd(code, sc, below, p1, false, tt, fl1, a);
    EndsInJoin(code, a, a + |c1|, a + |c1| + |c2|);
  }

  lemma ThenTest(code: seq<Slot>, a: int, f: FirstSet, off: int, positions: seq<int>, hi: int)
    requires Loaded(code, a, OptionalTest(f, off), positions) && (f.empty || Ends(code, a + off))
    requires EndsIn(code, a + |OptionalTest(f, off)|, hi)
    ensures EndsIn(code, a, hi)
  {
    hide Ends, Loaded;
    if !f.empty { TestEnds(code, a, f.cs, off, positions); }
  }

  lemma ThenJump(code: seq<Slot>, a: int, op: Opcode, off: int, positions: seq<int>, hi: int)
    requires Loaded(code, a, Jump(op, off), positions) && op != IOpenCall && (op == IJmp ==> Ends(code, a + off))
    requires EndsIn(code, a + 2, hi)
    ensures EndsIn(code, a, hi)
  {
    hide Ends, Loaded;
    JumpSlotsEnd(code, a, op, off, positions);
  }

  lemma ThenInst(code: seq<Slot>, a: int, x: Slot, positions: seq<int>, hi: int)
    requires Loaded(code, a, [x], positions) && x.Inst? && x.op != IOpenCall && x.op != IJmp
    requires EndsIn(code, a + 1, hi)
    ensures EndsIn(code, a, hi)
  {
    hide Ends;
    LoadedInst(code, a, x, positions);
    NoJumpEnds(code, a);
  }

  lemma {:induction false} ChoiceChainsEnd(code: seq<Slot>, sc: Scope, below: nat, t: Tree, opt: bool, fl: Charset, a: int,
                                           part: seq<Slot>)
    requires Fine(code, sc, below, t) && t.TChoice?
    requires part == CodeChoice(sc.depth, sc.rules, t.p1, t.p2, opt, fl)
    requires Loaded(code, a, part, sc.positions) && Ends(code, a + |part|)
    ensures EndsIn(code, a, a + |part|)
    decreases t, 2
  {
    hide Fine, Code, Loaded, Ends, EndsIn, GetFirst, ChoiceByTest, InScope, CodeTest, TestSize, TestOf;
    FineParts(code, sc, below, t);
    var TChoice(p1, p2) := t;
    var hi := a + |part|;
    var f1 := GetFirst(sc.depth, sc.rules, p1, AllBytes());
    var c2 := CodeIn(sc, p2, opt, NoTest, fl);
    if ChoiceByTest(sc.depth, sc.rules, p1, p2, fl) {
      ChoiceByTestEnds(code, sc, below, t, opt, fl, a);
    } else if opt && p2.TTrue? {
      var c1 := CodeIn(sc, p1, true, NoTest, AllBytes());
      LoadedSplit(code, a, Jump(IPartialCommit, 2), c1, sc.positions);
      ChainsEnd(code, sc, below, p1, true, NoTest, AllBytes(), a + 2);
      ThenJump(code, a, IPartialCommit, 2, sc.positions, hi);
    } else {
      var tt1 := if f1.empty then NoTest else TestOf(f1.cs);
      var c1 := CodeIn(sc, p1, p2.TTrue?, tt1, AllBytes());
      var off := TestSize(f1.cs) + 2 + |c1| + 2;
      var test := OptionalTest(f1, off);
      TestLength(f1, off);
      assert part == test + Jump(IChoice, 2 + |c1| + 2) + c1 + Jump(ICommit, 2 + |c2|) + c2;
      ChoiceByDefaultEnds(code, sc, below, t, p2.TTrue?, tt1, opt, fl, a, test, c1, c2, off);
    }
  }

  lemma {:induction false} ChoiceByDefaultEnds(code: seq<Slot>, sc: Scope, below: nat, t: Tree, opt1: bool, tt1: Test,
                                               opt: bool, fl: Charset, a: int, test: seq<Slot>, c1: seq<Slot>,
                                               c2: seq<Slot>, off: nat)
    requires Fine(code, sc, below, t) && t.TChoice?
    requires c1 == CodeIn(sc, t.p1, opt1, tt1, AllBytes()) && c2 == CodeIn(sc, t.p2, opt, NoTest, fl)
    requires var f1 := GetFirst(sc.depth, sc.rules, t.p1, AllBytes());
             test == OptionalTest(f1, off) && (f1.empty || off == |test| + 2 + |c1| + 2)
    requires var part := test + Jump(IChoice, 2 + |c1| + 2) + c1 + Jump(ICommit, 2 + |c2|) + c2;
             Loaded(code, a, part, sc.positions) && Ends(code, a + |part|)
    ensures EndsIn(code, a, a + |test| + 2 + |c1| + 2 + |c2|)
    decreases t, 1
  {
    hide Fine, Code, CodeIn, Loaded, Ends, EndsIn, GetFirst, InScope, OptionalTest;
    FineParts(code, sc, below, t);
    var hi := a + |test| + 2 + |c1| + 2 + |c2|;
    var f1 := GetFirst(sc.depth, sc.rules, t.p1, AllBytes());
    var choice, commit := Jump(IChoice, 2 + |c1| + 2), Jump(ICommit, 2 + |c2|);
    LoadedSplit(code, a, test + choice + c1 + commit, c2, sc.positions);
    LoadedSplit(code, a, test + choice + c1, commit, sc.positions);
    LoadedSplit(code, a, test + choice, c1, sc.positions);
    LoadedSplit(code, a, test, choice, sc.positions);
    var q := a + |test|;
    var l1 := q + 2 + |c1| + 2;
    ChainsEnd(code, sc, below, t.p2, opt, NoTest, fl, l1);
    StartEnds(code, l1, hi);
    ThenJump(code, q + 2 + |c1|, ICommit, 2 + |c2|, sc.positions, hi);
    StartEnds(code, q + 2 + |c1|, hi);
    ChainsEnd(code, sc, below, t.p1, opt1, tt1, AllBytes(), q + 2);
    EndsInJoin(code, q + 2, q + 2 + |c1|, hi);
    ThenJump(code, q, IChoice, 2 + |c1| + 2, sc.positions, hi);
    ThenTest(code, a, f1, off, sc.positions, hi);
  }

  lemma TestLength(f: FirstSet, off: int)
    ensures |OptionalTest(f, off)| == if f.empty then 0 else TestSize(f.cs)
  {
  }

  lemma StartEnds(code: seq<Slot>, lo: int, hi: int)
    requires EndsIn(code, lo, hi) && lo <= hi
    ensures Ends(code, lo) && Ends(code, hi)
  {
  }

  lemma {:induction false} ChoiceByTestEnds(code: seq<Slot>, sc: Scope, below: nat, t: Tree, opt: bool, fl: Charset, a: int)
    requires Fine(code, sc, below, t) && t.TChoice? && ChoiceByTest(sc.depth, sc.rules, t.p1, t.p2, fl)
    requires Loaded(code, a, CodeChoice(sc.depth, sc.rules, t.p1, t.p2, opt, fl), sc.positions)
    requires Ends(code, a + |CodeChoice(sc.depth, sc.rules, t.p1, t.p2, opt, fl)|)
    ensures EndsIn(code, a, a + |CodeChoice(sc.depth, sc.rules, t.p1, t.p2, opt, fl)|)
    decreases t, 1
  {
    hide Fine, Code, Loaded, Ends, EndsIn, GetFirst, ChoiceByTest, InScope, CodeTest, TestSize, TestOf;
    FineParts(code, sc, below, t);
    var TChoice(p1, p2) := t;
    var hi := a + |CodeChoice(sc.depth, sc.rules, p1, p2, opt, fl)|;
    var f1 := FirstSet(GetFirst(sc.depth, sc.rules, p1, AllBytes()).cs, false);
    var c1 := CodeIn(sc, p1, false, TestOf(f1.cs), fl);
    var c2 := CodeIn(sc, p2, opt, NoTest, fl);
    var jmp := if p2.TTrue? then [] else Jump(IJmp, 2 + |c2|);
    var off := TestSize(f1.cs) + |c1| + |jmp|;
    var test := CodeTest(f1.cs, off);
    assert test == OptionalTest(f1, off);
    TestLength(f1, off);
    LoadedSplit(code, a, test + c1 + jmp, c2, sc.positions);
    LoadedSplit(code, a, test + c1, jmp, sc.positions);
    LoadedSplit(code, a, test, c1, sc.positions);
    ChainsEnd(code, sc, below, p2, opt, NoTest, fl, a + off);
    StartEnds(code, a + off, hi);
    if !p2.TTrue? { ThenJump(code, a + |test| + |c1|, IJmp, 2 + |c2|, sc.positions, hi); }
    StartEnds(code, a + |test| + |c1|, hi);
    ChainsEnd(code, sc, below, p1, false, TestOf(f1.cs), fl, a + |test|);
    EndsInJoin(code, a + |test|, a + |test| + |c1|, hi);
    ThenTest(code, a, f1, off, sc.positions, hi);
  }

  lemma {:induction false} RepChainsEnd(code: seq<Slot>, sc: Scope, below: nat, t: Tree, opt: bool, fl: Charset, a: int,
                                        part: seq<Slot>)
    requires Fine(code, sc, below, t) && t.TRep?
    requires part == CodeRep(sc.depth, sc.rules, t.p, opt, fl)
    requires Loaded(code, a, part, sc.positions) && Ends(code, a + |part|)
    ensures EndsIn(code, a, a + |part|)
    decreases t, 2
  {
    hide Fine, Code, Loaded, Ends, EndsIn, GetFirst, RepByTest, InScope, CodeTest, TestSize, TestOf, ToCharset, Buffer;
    FineParts(code, sc, below, t);
    var p := t.p;
    var hi := a + |part|;
    if ToCharset(p).Some? {
      SpanEnds(code, a, ToCharset(p).value, sc.positions);
    } else {
      var f := GetFirst(sc.depth, sc.rules, p, AllBytes());
      if RepByTest(sc.depth, sc.rules, p, fl) {
        var c := CodeIn(sc, p, false, TestOf(f.cs), AllBytes());
        var size := TestSize(f.cs) + |c|;
        assert part == CodeTest(f.cs, size + 2) + c + Jump(IJmp, -size);
        TestLength(FirstSet(f.cs, false), size + 2);
        LoopEnds(code, sc, below, p, f.cs, c, a);
      } else {
        var c := CodeIn(sc, p, false, NoTest, AllBytes());
        var op := if opt then IPartialCommit else IChoice;
        var to := if opt then 2 else 2 + |c| + 2;
        var off := TestSize(f.cs) + 2 + |c| + 2;
        var test := OptionalTest(f, off);
        TestLength(f, off);
        LoadedSplit(code, a, test + Jump(op, to) + c, Jump(IPartialCommit, -|c|), sc.positions);
        LoadedSplit(code, a, test + Jump(op, to), c, sc.positions);
        LoadedSplit(code, a, test, Jump(op, to), sc.positions);
        OnlyEnds(code, hi);
        ThenJump(code, a + |test| + 2 + |c|, IPartialCommit, -|c|, sc.positions, hi);
        StartEnds(code, a + |test| + 2 + |c|, hi);
        ChainsEnd(code, sc, below, p, false, NoTest, AllBytes(), a + |test| + 2);
        EndsInJoin(code, a + |test| + 2, a + |test| + 2 + |c|, hi);
        ThenJump(code, a + |test|, op, to, sc.positions, hi);
        ThenTest(code, a, f, off, sc.positions, hi);
      }
    }
  }

  lemma OnlyEnds(code: seq<Slot>, hi: int)
    requires Ends(code, hi)
    ensures EndsIn(code, hi, hi)
  {
  }

  lemma SpanEnds(code: seq<Slot>, a: int, cs: Charset, positions: seq<int>)
    requires Loaded(code, a, [Inst(ISpan, 0, 0)] + Buffer(cs), positions)
    requires Ends(code, a + |[Inst(ISpan, 0, 0)] + Buffer(cs)|)
    ensures EndsIn(code, a, a + |[Inst(ISpan, 0, 0)] + Buffer(cs)|)
  {
    hide Ends, Loaded;
    PlainEnds(code, a, [Inst(ISpan, 0, 0)] + Buffer(cs), positions);
  }

  // `L1: test -> L2; ...; jmp L1; L2:`. The jump back leads to a test that is
  // no jump, or one that jumps on to L2.
  lemma {:induction false} LoopEnds(code: seq<Slot>, sc: Scope, below: nat, p: Tree, cs: Charset, c: seq<Slot>, a: int)
    requires Fine(code, sc, below, p) && c == CodeIn(sc, p, false, TestOf(cs), AllBytes())
    requires var size := TestSize(cs) + |c|;
             && Loaded(code, a, CodeTest(cs, size + 2) + c + Jump(IJmp, -size), sc.positions)
             && Ends(code, a + size + 2)
    ensures EndsIn(code, a, a + TestSize(cs) + |c| + 2)
    decreases p, 4
  {
    hide Loaded, Ends, EndsIn, InScope, CodeTest, TestSize, TestOf;
    var size := TestSize(cs) + |c|;
    var f := FirstSet(cs, false);
    var test := CodeTest(cs, size + 2);
    assert test == OptionalTest(f, size + 2);
    TestLength(f, size + 2);
    LoadedSplit(code, a, test + c, Jump(IJmp, -size), sc.positions);
    LoadedSplit(code, a, test, c, sc.positions);
    TestEnds(code, a, cs, size + 2, sc.positions);
    TestNotEmpty(cs);
    OnlyEnds(code, a + size + 2);
    ThenJump(code, a + size, IJmp, -size, sc.positions, a + size + 2);
    StartEnds(code, a + size, a + size + 2);
    ChainsEnd(code, sc, below, p, false, TestOf(cs), AllBytes(), a + |test|);
    EndsInJoin(code, a + |test|, a + size, a + size + 2);
    ThenTest(code, a, f, size + 2, sc.positions, a + size + 2);
  }

  lemma TestNotEmpty(cs: Charset)
    ensures TestSize(cs) >= 2
  {
  }

  lemma {:induction false} NotChainsEnd(code: seq<Slot>, sc: Scope, below: nat, t: Tree, a: int,
                                        part: seq<Slot>)
    requires Fine(code, sc, below, t) && t.TNot?
    requires part == CodeNot(sc.depth, sc.rules, t.p)
    requires Loaded(code, a, part, sc.positions) && Ends(code, a + |part|)
    ensures EndsIn(code, a, a + |part|)
    decreases t, 2
  {
    hide Fine, Code, Loaded, Ends, EndsIn, GetFirst, Headfail, InScope, CodeTest, TestSize, TestOf;
    FineParts(code, sc, below, t);
    var p := t.p;
    var hi := a + |part|;
    var f := GetFirst(sc.depth, sc.rules, p, AllBytes());
    OnlyEnds(code, hi);
    if Headfail(sc.depth, sc.rules, p) {
      var off := TestSize(f.cs) + 1;
      var test := OptionalTest(f, off);
      TestLength(f, off);
      LoadedSplit(code, a, test, [Inst(IFail, 0, 0)], sc.positions);
      ThenInst(code, a + |test|, Inst(IFail, 0, 0), sc.positions, hi);
      ThenTest(code, a, f, off, sc.positions, hi);
    } else {
      var c := CodeIn(sc, p, false, NoTest, AllBytes());
      var body := Jump(IChoice, 2 + |c| + 1) + c + [Inst(IFailTwice, 0, 0)];
      var off := TestSize(f.cs) + |body|;
      var test := OptionalTest(f, off);
      TestLength(f, off);
      LoadedSplit(code, a, test, body, sc.positions);
      LoadedSplit(code, a + |test|, Jump(IChoice, 2 + |c| + 1) + c, [Inst(IFailTwice, 0, 0)], sc.positions);
      LoadedSplit(code, a + |test|, Jump(IChoice, 2 + |c| + 1), c, sc.positions);
      ThenInst(code, a + |test| + 2 + |c|, Inst(IFailTwice, 0, 0), sc.positions, hi);
      StartEnds(code, a + |test| + 2 + |c|, hi);
      ChainsEnd(code, sc, below, p, false, NoTest, AllBytes(), a + |test| + 2);
      EndsInJoin(code, a + |test| + 2, a + |test| + 2 + |c|, hi);
      ThenJump(code, a + |test|, IChoice, 2 + |c| + 1, sc.positions, hi);
      ThenTest(code, a, f, off, sc.positions, hi);
    }
  }

  lemma {:induction false} AndChainsEnd(code: seq<Slot>, sc: Scope, below: nat, t: Tree, tt: Test, a: int,
                                        part: seq<Slot>)
    requires Fine(code, sc, below, t) && t.TAnd?
    requires part == CodeAnd(sc.depth, sc.rules, t.p, tt)
    requires Loaded(code, a, part, sc.positions) && Ends(code, a + |part|)
    ensures EndsIn(code, a, a + |part|)
    decreases t, 2
  {
    hide Fine, Code, Loaded, Ends, EndsIn, FixedLen, HasCaptures, InScope;
    FineParts(code, sc, below, t);
    var p := t.p;
    var hi := a + |part|;
    var n := Length(sc.rules, p);
    var c := CodeIn(sc, p, false, tt, AllBytes());
    OnlyEnds(code, hi);
    if 0 <= n <= MAXBEHIND && !Captures(sc.rules, p) {
      LoadedSplit(code, a, c, if n > 0 then [Inst(IBehind, n, 0)] else [], sc.positions);
      if n > 0 { ThenInst(code, a + |c|, Inst(IBehind, n, 0), sc.positions, hi); }
      StartEnds(code, a + |c|, hi);
      ChainsEnd(code, sc, below, p, false, tt, AllBytes(), a);
      EndsInJoin(code, a, a + |c|, hi);
    } else {
      LoadedSplit(code, a, Jump(IChoice, 2 + |c| + 2) + c + Jump(IBackCommit, 3), [Inst(IFail, 0, 0)], sc.positions);
      LoadedSplit(code, a, Jump(IChoice, 2 + |c| + 2) + c, Jump(IBackCommit, 3), sc.positions);
      LoadedSplit(code, a, Jump(IChoice, 2 + |c| + 2), c, sc.positions);
      ThenInst(code, a + 2 + |c| + 2, Inst(IFail, 0, 0), sc.positions, hi);
      ThenJump(code, a + 2 + |c|, IBackCommit, 3, sc.positions, hi);
      StartEnds(code, a + 2 + |c|, hi);
      ChainsEnd(code, sc, below, p, false, tt, AllBytes(), a + 2);
      EndsInJoin(code, a + 2, a + 2 + |c|, hi);
      ThenJump(code, a, IChoice, 2 + |c| + 2, sc.positions, hi);
    }
  }

  lemma {:induction false} CaptureChainsEnd(code: seq<Slot>, sc: Scope, below: nat, t: Tree, tt: Test, fl: Charset, a: int,
                                            part: seq<Slot>)
    requires Fine(code, sc, below, t) && t.TCapture?
    requires part == CodeCapture(sc.depth, sc.rules, t.kind, t.key, t.p, tt, fl)
    requires Loaded(code, a, part, sc.positions) && Ends(code, a + |part|)
    ensures EndsIn(code, a, a + |part|)
    decreases t, 2
  {
    hide Fine, Code, Loaded, Ends, EndsIn, FixedLen, HasCaptures, InScope;
    FineParts(code, sc, below, t);
    var TCapture(kind, key, p) := t;
    var hi := a + |part|;
    var len := Length(sc.rules, p);
    var c := CodeIn(sc, p, false, tt, fl);
    OnlyEnds(code, hi);
    if 0 <= len <= MAXOFF && !Captures(sc.rules, p) {
      LoadedSplit(code, a, c, [Inst(IFullCapture, kind + 16 * len, key)], sc.positions);
      ThenInst(code, a + |c|, Inst(IFullCapture, kind + 16 * len, key), sc.positions, hi);
      StartEnds(code, a + |c|, hi);
      ChainsEnd(code, sc, below, p, false, tt, fl, a);
      EndsInJoin(code, a, a + |c|, hi);
    } else {
      LoadedSplit(code, a, [Inst(IOpenCapture, kind, key)] + c, [Inst(ICloseCapture, C_CLOSE, 0)], sc.positions);
      LoadedSplit(code, a, [Inst(IOpenCapture, kind, key)], c, sc.positions);
      ThenInst(code, a + 1 + |c|, Inst(ICloseCapture, C_CLOSE, 0), sc.positions, hi);
      StartEnds(code, a + 1 + |c|, hi);
      ChainsEnd(code, sc, below, p, false, tt, fl, a + 1);
      EndsInJoin(code, a + 1, a + 1 + |c|, hi);
      ThenInst(code, a, Inst(IOpenCapture, kind, key), sc.positions, hi);
    }
  }

  lemma {:induction false} BehindChainsEnd(code: seq<Slot>, sc: Scope, below: nat, t: Tree, fl: Charset, a: int,
                                           part: seq<Slot>)
    requires Fine(code, sc, below, t) && t.TBehind?
    requires part == CodeIn(sc, t, false, NoTest, fl)
    requires Loaded(code, a, part, sc.positions) && Ends(code, a + |part|)
    ensures EndsIn(code, a, a + |part|)
    decreases t, 2
  {
    hide Fine, Loaded, Ends, EndsIn, InScope;
    FineParts(code, sc, below, t);
    var hi := a + |part|;
    var c := CodeIn(sc, t.p, false, NoTest, AllBytes());
    var head := if t.n > 0 then [Inst(IBehind, t.n, 0)] else [];
    LoadedSplit(code, a, head, c, sc.positions);
    ChainsEnd(code, sc, below, t.p, false, NoTest, AllBytes(), a + |head|);
    if t.n > 0 { ThenInst(code, a, Inst(IBehind, t.n, 0), sc.positions, hi); }
  }

  lemma {:induction false} GrammarChainsEnd(code: seq<Slot>, sc: Scope, below: nat, t: Tree, a: int,
                                            part: seq<Slot>)
    requires Fine(code, sc, below, t) && t.TGrammar?
    requires part == CodeGrammar(sc.depth, t.rules)
    requires Loaded(code, a, part, sc.positions) && Ends(code, a + |part|)
    ensures EndsIn(code, a, a + |part|)
    decreases t, 2
  {
    hide Fine, Loaded, Ends, EndsIn, Code, CodeRules, CorrectCalls, Positions;
    var body := CodeRules(sc.depth, t.rules, 0);
    var corrected := CorrectCalls(body, Positions(sc.depth, t.rules, 0, 0), 0);
    GrammarRulesEnd(code, sc, below, t, a);
    LoadedSplit(code, a, Jump(ICall, 4) + Jump(IJmp, 2 + |body|), corrected, sc.positions);
    LoadedSplit(code, a, Jump(ICall, 4), Jump(IJmp, 2 + |body|), sc.positions);
    ThenJump(code, a + 2, IJmp, 2 + |body|, sc.positions, a + |part|);
    ThenJump(code, a, ICall, 4, sc.positions, a + |part|);
  }

  lemma {:induction false} GrammarRulesEnd(code: seq<Slot>, sc: Scope, below: nat, t: Tree, a: int)
    requires Fine(code, sc, below, t) && t.TGrammar?
    requires Loaded(code, a, CodeGrammar(sc.depth, t.rules), sc.positions)
    requires Ends(code, a + |CodeGrammar(sc.depth, t.rules)|)
    ensures EndsIn(code, a + 4, a + |CodeGrammar(sc.depth, t.rules)|)
    decreases t, 2, 0
  {
    hide Loaded, Ends, EndsIn, InScope, Code, CodeRules, CorrectCalls, UsedRules, GrammarSafe, Positions, RuleVerified;
    var body := CodeRules(sc.depth, t.rules, 0);
    var positions := Positions(sc.depth, t.rules, 0, 0);
    LoadedSplit(code, a, Jump(ICall, 4) + Jump(IJmp, 2 + |body|), CorrectCalls(body, positions, 0), sc.positions);
    CorrectedEnds(code, sc.depth, below, t, a + 4, sc.positions);
  }

  lemma {:induction false} CorrectedEnds(code: seq<Slot>, depth: nat, below: nat, t: Tree, base: int, outer: seq<int>)
    requires t.TGrammar? && WellFormed([], t) && Accepted(true, below, t)
    requires Loaded(code, base, CorrectCalls(CodeRules(depth, t.rules, 0), Positions(depth, t.rules, 0, 0), 0), outer)
    requires Ends(code, base + |CodeRules(depth, t.rules, 0)|)
    ensures EndsIn(code, base, base + |CodeRules(depth, t.rules, 0)|)
    decreases t, 1, |t.rules| + 1
  {
    hide Loaded, Ends, EndsIn, InScope, Code, CodeRules, CorrectCalls, UsedRules, GrammarSafe, Positions, Accepted;
    var inner := Scope(depth, t.rules, Shifted(Positions(depth, t.rules, 0, 0), base));
    CorrectedInScope(Machine(code, []), depth, t, base, outer);
    UsedRulesEnd(code, inner, below, t);
    RulesChainsEnd(code, inner, below, t, 0, base);
  }

  lemma UsedRulesEnd(code: seq<Slot>, sc: Scope, below: nat, t: Tree)
    requires t == TGrammar(sc.rules) && Accepted(true, below, t) && InScope(Machine(code, []), sc)
    ensures forall k :: k in UsedRules(sc.rules) ==> k < |sc.positions| && Ends(code, sc.positions[k])
  {
    hide Ends, InScope, UsedRules, GrammarSafe, Accepted;
    AcceptedGrammarSafe(below, t);
    forall k | k in UsedRules(sc.rules) ensures k < |sc.positions| && Ends(code, sc.positions[k]) {
      RuleStartEnds(code, sc, below, k);
    }
  }

  lemma {:induction false} RulesChainsEnd(code: seq<Slot>, sc: Scope, below: nat, t: Tree, k: nat, at: int)
    requires t == TGrammar(sc.rules) && k <= |sc.rules|
    requires InScope(Machine(code, []), sc) && Accepted(true, below, t) && WellFormed([], t)
    requires forall j :: j in UsedRules(sc.rules) ==> j < |sc.positions| && Ends(code, sc.positions[j])
    requires Loaded(code, at, CodeRules(sc.depth, sc.rules, k), sc.positions)
    requires Ends(code, at + |CodeRules(sc.depth, sc.rules, k)|)
    ensures EndsIn(code, at, at + |CodeRules(sc.depth, sc.rules, k)|)
    decreases t, 1, |sc.rules| - k
  {
    hide Loaded, Ends, EndsIn, InScope, UsedRules, RuleVerified;
    var hi := at + |CodeRules(sc.depth, sc.rules, k)|;
    if k < |sc.rules| {
      var p := sc.rules[k];
      var c := CodeIn(sc, p, false, NoTest, AllBytes());
      LoadedSplit(code, at, c + [Inst(IRet, 0, 0)], CodeRules(sc.depth, sc.rules, k + 1), sc.positions);
      LoadedSplit(code, at, c, [Inst(IRet, 0, 0)], sc.positions);
      RulesChainsEnd(code, sc, below, t, k + 1, at + |c| + 1);
      ThenInst(code, at + |c|, Inst(IRet, 0, 0), sc.positions, hi);
      StartEnds(code, at + |c|, hi);
      assert CalledBy(p) <= UsedRules(sc.rules);
      ChainsEnd(code, sc, below, p, false, NoTest, AllBytes(), at);
      EndsInJoin(code, at, at + |c|, hi);
    } else {
      OnlyEnds(code, hi);
    }
  }
}
