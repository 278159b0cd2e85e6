// Left recursion that the checks miss.

module Pitfalls {
  // Grammars that pass the checks of the source and are left-recursive all the
  // same: what the compiler makes of them, and what the machine does with that.

  import opened PegSyntax
  import opened Analysis
  import opened Vm
  import opened CodeGen
  import opened Calls
  import opened CompilerCorrect
  import opened Peephole
  import opened Termination
  import opened Chains
  import opened Depths
  import opened Compiler
  import Matcher

  // `S <- -G p` with `G <- x`. For a sub-grammar `verifyrule` answers whether it is
  // nullable, also behind a predicate; if it is not, `p` is never looked at.
  function Skipping(x: Tree, p: Tree): seq<Tree> { [TSeq(TNot(TGrammar([x])), p)] }

  // The source accepts such a grammar whatever `p` calls.
  lemma SkippingAccepted(below: nat, x: Tree, p: Tree)
    requires x in {TChar(97), TFalse} && CalledBy(p) <= {0}
    requires Accepted(false, below, p) && !CheckLoops(MAXRULES + below, Skipping(x, p), p)
    ensures AcceptedPattern(false, below, TGrammar(Skipping(x, p)))
  {
    var rs := Skipping(x, p);
    var g := TGrammar([x]);
    assert [x][0] == x;
    assert !CheckAux(MAXRULES + below, [x], x, false);
    assert !Nullable(MAXRULES + below, rs, g);
    assert UsedRules([x][1..]) == {0};
    assert UsedRules([x]) == {0};
    assert UsedRules(rs[1..]) == {0};
    assert CalledBy(TNot(g)) == {} && rs[0] == TSeq(TNot(g), p);
    assert CalledBy(rs[0]) <= {0};
    assert UsedRules(rs) == {0};
    assert RuleVerified(false, below, [x], x);
    assert Accepted(false, below, g);
    assert VerifyRule(false, below, rs, g, 0, true) == Accept(false);
    assert VerifyRule(false, below, rs, TNot(g), 0, false) == Accept(false);
    assert VerifyRule(false, below, rs, rs[0], 0, false) == Accept(false);
    assert !CheckLoops(MAXRULES + below, rs, TNot(g));
    assert !CheckLoops(MAXRULES + below, rs, rs[0]);
    assert RuleVerified(false, below, rs, rs[0]);
    assert Accepted(false, below, rs[0]);
  }

  // -------------------------------------------------------------------------
  // A pattern that is matched for ever
  // -------------------------------------------------------------------------

  // `S <- -'a' S`
  const LOOPING: seq<Tree> := Skipping(TChar(97), TCall(0))

  lemma SourceAcceptsLooping(below: nat)
    ensures AcceptedPattern(false, below, TGrammar(LOOPING))
  {
    SkippingAccepted(below, TChar(97), TCall(0));
  }

  lemma TestCode(c: Byte, off: int)
    ensures CodeTest({c}, off) == [Inst(ITestChar, c, 0), Offset(off)] && TestSize({c}) == 2
  {
    SingleIsSingle(c);
  }

  // A grammar of one rule, whose body has an open call at `k` in front of the
  // return.
  lemma OneTailCall(depth: nat, rs: seq<Tree>, body: seq<Slot>, k: int)
    requires k >= 0 && |rs| == 1 && Code(depth, rs, rs[0], false, NoTest, AllBytes()) == body
    requires |body| == k + 2 && body[k] == Inst(IOpenCall, 0, 0) && body[k + 1] == Unset
    requires forall x :: 0 <= x < k ==> !IsOp(body, x, IOpenCall)
    ensures CodeGrammar(depth, rs) ==
            Jump(ICall, 4) + Jump(IJmp, 2 + k + 3) + (body[..k] + Jump(IJmp, -k) + [Inst(IRet, 0, 0)])
  {
    hide CorrectCalls, Code;
    var code := body + [Inst(IRet, 0, 0)];
    assert CodeRules(depth, rs, 1) == [] && Positions(depth, rs, 1, k + 3) == [];
    assert CodeRules(depth, rs, 0) == code;
    assert Positions(depth, rs, 0, 0) == [0];
    forall x | 0 <= x < k ensures !IsOp(code, x, IOpenCall) {
      assert code[x] == body[x] && !IsOp(body, x, IOpenCall);
    }
    SkipsOther(code, [0], 0, k);
    TailCallFixed(code, k);
  }

  lemma TailCallFixed(code: seq<Slot>, k: int)
    requires k >= 0 && |code| == k + 3 && code[k] == Inst(IOpenCall, 0, 0) && IsOp(code, k + 2, IRet)
    ensures CorrectCalls(code, [0], k) == code[..k] + Jump(IJmp, -k) + code[k + 2..]
  {
    var fixed := code[k := Inst(IJmp, 0, 0)][k + 1 := Offset(-k)];
    assert FinalTarget(code, k + 2, ChainBound(code)) == k + 2;
    assert CorrectCalls(code, [0], k) == CorrectCalls(fixed, [0], k + 2);
    SkipsOther(fixed, [0], k + 2, k + 3);
    assert fixed == code[..k] + Jump(IJmp, -k) + code[k + 2..];
  }

  function LoopingCode(): seq<Slot> {
    Jump(ICall, 4) + Jump(IJmp, 8) +
    [Inst(ITestChar, 97, 0), Offset(3), Inst(IFail, 0, 0), Inst(IJmp, 0, 0), Offset(-3), Inst(IRet, 0, 0), Inst(IEnd, 0, 0)]
  }

  lemma LoopingFirst(depth: nat)
    ensures var g := TGrammar([TChar(97)]);
            GetFirst(depth, LOOPING, g, AllBytes()) == FirstSet({97}, false) && Headfail(depth, LOOPING, g)
  {
    var c := TChar(97);
    assert [c][0] == c;
    assert GetFirst(depth, [c], c, AllBytes()) == FirstSet({97}, false) && Headfail(depth, [c], c);
  }

  lemma LoopingRule(depth: nat)
    ensures Code(depth, LOOPING, LOOPING[0], false, NoTest, AllBytes()) ==
            [Inst(ITestChar, 97, 0), Offset(3), Inst(IFail, 0, 0), Inst(IOpenCall, 0, 0), Unset]
  {
    hide GetFirst, Headfail, CodeTest, TestSize, FixedLen;
    LoopingFirst(depth);
    TestCode(97, 3);
    assert CodeNot(depth, LOOPING, TGrammar([TChar(97)])) == [Inst(ITestChar, 97, 0), Offset(3), Inst(IFail, 0, 0)];
  }

  lemma LoopingGenerated()
    ensures CodeOf(TGrammar(LOOPING)) == LoopingCode()
  {
    hide CodeGrammar, Depth;
    var depth := Depth(TGrammar(LOOPING));
    var body := [Inst(ITestChar, 97, 0), Offset(3), Inst(IFail, 0, 0), Inst(IOpenCall, 0, 0), Unset];
    LoopingRule(depth);
    OneTailCall(depth, LOOPING, body, 3);
  }

  // After the last pass, the test jumps to itself.
  function LoopingOptimized(): seq<Slot> {
    Jump(ICall, 4) + [Inst(IEnd, 0, 0), Inst(IAny, 0, 0)] +
    [Inst(ITestChar, 97, 0), Offset(0), Inst(IFail, 0, 0), Inst(IJmp, 0, 0), Offset(-3), Inst(IRet, 0, 0), Inst(IEnd, 0, 0)]
  }

  // The jump over the rules is now the end itself.
  function LoopingHalfway(): seq<Slot> { LoopingCode()[2 := Inst(IEnd, 0, 0)][3 := Inst(IAny, 0, 0)] }

  lemma LoopingJump()
    ensures OptimizeAt(LoopingCode(), 0) == LoopingCode() && OptimizeAt(LoopingCode(), 2) == LoopingHalfway()
  {
    var a := LoopingCode();
    ChainStops(a, 4, ChainBound(a));
    assert FinalTarget(a, 2, ChainBound(a)) == FinalTarget(a, 10, ChainBound(a) - 1) == 10;
  }

  lemma LoopingTest()
    ensures OptimizeAt(LoopingHalfway(), 4) == LoopingOptimized()
    ensures OptimizeAt(LoopingOptimized(), 7) == LoopingOptimized()
  {
    var b, c := LoopingHalfway(), LoopingOptimized();
    assert FinalTarget(b, 7, ChainBound(b)) == FinalTarget(b, 4, ChainBound(b) - 1) == 4;
    assert FinalTarget(c, 7, ChainBound(c)) == FinalTarget(c, 4, ChainBound(c) - 1) == 4;
  }

  lemma LoopingCompiled()
    ensures Compile(TGrammar(LOOPING)) == LoopingOptimized()
  {
    hide CodeOf, PeepholeFrom, OptimizeAt;
    LoopingGenerated();
    LoopingJump();
    LoopingTest();
    var a, b, c := LoopingCode(), LoopingHalfway(), LoopingOptimized();
    Pass(a, 0, a);
    Pass(a, 2, b);
    PlainPass(b, 3);
    Pass(b, 4, c);
    LoopingTail(c);
  }

  lemma LoopingTail(c: seq<Slot>)
    requires c == LoopingOptimized() && OptimizeAt(c, 7) == c
    ensures PeepholeFrom(c, 6) == c
  {
    hide PeepholeFrom, OptimizeAt;
    PlainPass(c, 6);
    Pass(c, 7, c);
    PlainPass(c, 9);
    PlainPass(c, 10);
    PassEnds(c);
  }

  lemma Pass(code: seq<Slot>, i: nat, next: seq<Slot>)
    requires i < |code| && OptimizeAt(code, i) == next
    ensures PeepholeFrom(code, i) == PeepholeFrom(next, i + Width(next[i]))
  {
  }

  lemma PlainPass(code: seq<Slot>, i: nat)
    requires HasInst(code, i) && !HasOffset(code, i)
    ensures PeepholeFrom(code, i) == PeepholeFrom(code, i + SizeI(code[i].op))
  {
  }

  lemma PassEnds(code: seq<Slot>)
    ensures PeepholeFrom(code, |code|) == code
  {
  }

  lemma {:induction false} StaysThere(m: Machine, st: State, n: nat)
    requires Step(m, st) == st
    ensures Run(m, st, n) == st
    decreases n
  {
    if n > 0 { StaysThere(m, st, n - 1); }
  }

  // Where the subject goes on with 'a' there is no match. Everywhere else the
  // machine never comes to an end, not even by the limit of its stack.
  lemma LoopingNeverEnds(s: seq<Byte>, i: nat, n: nat)
    requires i <= |s|
    ensures var m := Machine(Compile(TGrammar(LOOPING)), s);
            if i < |s| && s[i] == 97 then Run(m, Start(i), 6) == GaveUp
            else !Final(Run(m, Start(i), n)) && Matcher.Height(Matcher.StackOf(Run(m, Start(i), n))) <= 2
  {
    hide Compile;
    LoopingCompiled();
    var m := Machine(Compile(TGrammar(LOOPING)), s);
    var stack := Push(Ret(2), Push(Back(GIVEUP, i, 0), Bottom));
    var st := Running(4, i, stack, []);
    assert Step(m, Start(i)) == st;
    if i < |s| && s[i] == 97 {
      assert Step(m, st) == Running(6, i, stack, []);
      assert Step(m, Running(6, i, stack, [])) == Failing(stack, []);
      assert Step(m, Failing(stack, [])) == Failing(stack.rest, []);
      assert Step(m, Failing(stack.rest, [])) == Running(GIVEUP, i, Bottom, []);
      SixSteps(m, Start(i));
    } else {
      assert Step(m, st) == st;
      assert Matcher.Height(stack.rest) == 1;
      if n > 0 { StaysThere(m, st, n - 1); }
    }
  }

  lemma SixSteps(m: Machine, st: State)
    ensures Run(m, st, 6) == Step(m, Step(m, Step(m, Step(m, Step(m, Step(m, st))))))
  {
    hide Step;
    var x := Step(m, Step(m, Step(m, st)));
    assert Run(m, st, 6) == Run(m, x, 3);
  }

  // -------------------------------------------------------------------------
  // A pattern that is compiled for ever
  // -------------------------------------------------------------------------

  // `S <- -G S` with `G <- false`. The predicate is a jump over a failure, and the
  // call at the end of the rule a jump back to it.
  const JAMMED: seq<Tree> := Skipping(TFalse, TCall(0))

  lemma SourceAcceptsJammed(below: nat)
    ensures AcceptedPattern(false, below, TGrammar(JAMMED))
  {
    SkippingAccepted(below, TFalse, TCall(0));
  }

  function JammedCode(): seq<Slot> {
    Jump(ICall, 4) + Jump(IJmp, 8) +
    [Inst(IJmp, 0, 0), Offset(3), Inst(IFail, 0, 0), Inst(IJmp, 0, 0), Offset(-3), Inst(IRet, 0, 0), Inst(IEnd, 0, 0)]
  }

  lemma JammedGenerated()
    ensures CodeOf(TGrammar(JAMMED)) == JammedCode()
  {
    var t, rs := TGrammar(JAMMED), JAMMED;
    var depth := Depth(t);
    hide CodeGrammar, CodeRules, CorrectCalls, Depth;
    var g := TGrammar([TFalse]);
    assert [TFalse][0] == TFalse;
    assert GetFirst(depth, [TFalse], TFalse, AllBytes()) == FirstSet({}, false);
    assert GetFirst(depth, rs, g, AllBytes()) == FirstSet({}, false);
    assert Headfail(depth, [TFalse], TFalse) && Headfail(depth, rs, g);
    assert CodeTest({}, 3) == Jump(IJmp, 3);
    assert CodeNot(depth, rs, g) == [Inst(IJmp, 0, 0), Offset(3), Inst(IFail, 0, 0)];
    var body := [Inst(IJmp, 0, 0), Offset(3), Inst(IFail, 0, 0), Inst(IOpenCall, 0, 0), Unset];
    assert Code(depth, rs, rs[0], false, NoTest, AllBytes()) == body;
    OneTailCall(depth, rs, body, 3);
  }

  lemma {:induction false} GoesRound(code: seq<Slot>, n: nat)
    requires At(code, 4, IJmp, 3) && At(code, 7, IJmp, -3)
    ensures IsJump(code, FinalTarget(code, 4, n)) && IsJump(code, FinalTarget(code, 7, n))
    decreases n
  {
    if n > 0 { GoesRound(code, n - 1); }
  }

  // `peephole` starts with the call at address 0 and follows the chain from its
  // label. That chain never ends.
  lemma JammedNeverCompiles(n: nat)
    ensures var code := CodeOf(TGrammar(JAMMED));
            && KeepsOp(ICall) && At(code, 0, ICall, 4)
            && IsJump(code, FinalTarget(code, 0 + 4, n)) && !Ends(code, 0 + 4)
  {
    JammedGenerated();
    var code := JammedCode();
    forall k: nat ensures IsJump(code, FinalTarget(code, 4, k)) {
      GoesRound(code, k);
    }
    assert !Ends(code, 4);
  }

  // -------------------------------------------------------------------------
  // A pattern that overflows the stack
  // -------------------------------------------------------------------------

  // `S <- B(&(S 'x'))`: a look-behind of length 0 can hold a call, as `fixedlen` does
  // not look inside a predicate, and `verifyrule` does not look inside a
  // look-behind.
  const LOOKING_BACK: seq<Tree> := [TBehind(0, TAnd(TSeq(TCall(0), TChar(120))))]

  lemma SourceAcceptsLookingBack(below: nat)
    ensures WellFormed([], TGrammar(LOOKING_BACK)) && AcceptedPattern(false, below, TGrammar(LOOKING_BACK))
  {
    var rs := LOOKING_BACK;
    var p := rs[0].p;
    assert rs[0] == TBehind(0, p) && p == TAnd(p.p) && p.p == TSeq(TCall(0), TChar(120));
    assert UsedRules(rs[1..]) == {0};
    assert CalledBy(p.p) == {0};
    assert UsedRules(rs) == {0};
    assert !CheckLoops(MAXRULES + below, rs, p.p);
    assert !CheckLoops(MAXRULES + below, rs, p);
    assert Accepted(false, below, p.p);
    assert Accepted(false, below, p);
    assert RuleVerified(false, below, rs, rs[0]);
    assert Length(rs, p) == 0;
    assert WellFormed(rs, p.p);
  }

  function LookingBackCode(): seq<Slot> {
    Jump(ICall, 4) + Jump(IJmp, 7) +
    [Inst(ICall, 0, 0), Offset(0), Inst(IChar, 120, 0), Inst(IBehind, 1, 0), Inst(IRet, 0, 0), Inst(IEnd, 0, 0)]
  }

  lemma LookingBackMeasures()
    ensures var rs, p := LOOKING_BACK, LOOKING_BACK[0].p.p;
            Length(rs, TCall(0)) == 0 && Length(rs, p) == 1 && !Captures(rs, p)
  {
    var rs := LOOKING_BACK;
    var p := rs[0].p.p;
    var none, all := NoMarks(1), [true];
    assert none[0 := true] == all;
    assert FixedLen(rs, all, rs[0]) == 0;
    assert FixedLen(rs, none, TCall(0)) == 0;
    assert !HasCaptures(rs, all, TCall(0)) && !HasCaptures(rs, all, TChar(120));
    assert !HasCaptures(rs, all, p);
    assert !HasCaptures(rs, all, TAnd(p));
    assert !HasCaptures(rs, all, rs[0]);
    assert !HasCaptures(rs, none, TCall(0));
  }

  lemma LookingBackGenerated()
    ensures CodeOf(TGrammar(LOOKING_BACK)) == LookingBackCode()
  {
    var t, rs := TGrammar(LOOKING_BACK), LOOKING_BACK;
    var depth := Depth(t);
    hide CodeGrammar, CodeRules, CorrectCalls, Depth, FixedLen, HasCaptures;
    var p := rs[0].p.p;
    LookingBackMeasures();
    assert Code(depth, rs, p, false, NoTest, AllBytes()) == [Inst(IOpenCall, 0, 0), Unset, Inst(IChar, 120, 0)];
    var body := [Inst(IOpenCall, 0, 0), Unset, Inst(IChar, 120, 0), Inst(IBehind, 1, 0)];
    assert CodeAnd(depth, rs, p, NoTest) == body;
    assert Code(depth, rs, rs[0], false, NoTest, AllBytes()) == body;
    LookingBackCorrected(depth, body);
  }

  lemma LookingBackCorrected(depth: nat, body: seq<Slot>)
    requires body == [Inst(IOpenCall, 0, 0), Unset, Inst(IChar, 120, 0), Inst(IBehind, 1, 0)]
    requires Code(depth, LOOKING_BACK, LOOKING_BACK[0], false, NoTest, AllBytes()) == body
    ensures CodeGrammar(depth, LOOKING_BACK) + [Inst(IEnd, 0, 0)] == LookingBackCode()
  {
    hide Code;
    var rs, code := LOOKING_BACK, body + [Inst(IRet, 0, 0)];
    assert CodeRules(depth, rs, 1) == [] && Positions(depth, rs, 1, 5) == [];
    assert CodeRules(depth, rs, 0) == code && Positions(depth, rs, 0, 0) == [0];
    assert FinalTarget(code, 2, ChainBound(code)) == 2;
    var fixed := code[0 := Inst(ICall, 0, 0)][1 := Offset(0)];
    assert CorrectCalls(code, [0], 0) == CorrectCalls(fixed, [0], 2);
    SkipsOther(fixed, [0], 2, 5);
  }

  function LookingBackOptimized(): seq<Slot> {
    Jump(ICall, 4) + [Inst(IEnd, 0, 0), Inst(IAny, 0, 0)] +
    [Inst(ICall, 0, 0), Offset(0), Inst(IChar, 120, 0), Inst(IBehind, 1, 0), Inst(IRet, 0, 0), Inst(IEnd, 0, 0)]
  }

  lemma LookingBackCompiled()
    ensures Compile(TGrammar(LOOKING_BACK)) == LookingBackOptimized()
  {
    hide CodeOf, PeepholeFrom, OptimizeAt;
    LookingBackGenerated();
    LookingBackPasses();
    var a, b := LookingBackCode(), LookingBackOptimized();
    Pass(a, 0, a);
    Pass(a, 2, b);
    PlainPass(b, 3);
    Pass(b, 4, b);
    LookingBackTail(b);
  }

  lemma LookingBackTail(b: seq<Slot>)
    requires b == LookingBackOptimized()
    ensures PeepholeFrom(b, 6) == b
  {
    hide PeepholeFrom;
    PlainPass(b, 6);
    PlainPass(b, 7);
    PlainPass(b, 8);
    PlainPass(b, 9);
    PassEnds(b);
  }

  lemma LookingBackPasses()
    ensures OptimizeAt(LookingBackCode(), 0) == LookingBackCode()
    ensures OptimizeAt(LookingBackCode(), 2) == LookingBackOptimized()
    ensures OptimizeAt(LookingBackOptimized(), 4) == LookingBackOptimized()
  {
    var a, b := LookingBackCode(), LookingBackOptimized();
    ChainStops(a, 4, ChainBound(a));
    ChainStops(b, 4, ChainBound(b));
    assert FinalTarget(a, 2, ChainBound(a)) == FinalTarget(a, 9, ChainBound(a) - 1) == 9;
  }

  lemma {:induction false} CallsItself(m: Machine, i: nat, stack: Stack, n: nat)
    requires i <= |m.s| && At(m.code, 4, ICall, 0)
    ensures Run(m, Running(4, i, stack, []), n).Running?
    ensures Matcher.Height(Run(m, Running(4, i, stack, []), n).stack) == Matcher.Height(stack) + n
    decreases n
  {
    if n > 0 {
      var more := Push(Ret(6), stack);
      assert Step(m, Running(4, i, stack, [])) == Running(4, i, more, []);
      CallsItself(m, i, more, n - 1);
    }
  }

  // The rule calls itself before anything else: the run has no end, and it exceeds
  // every limit of the stack, so `match` stops with the overflow error.
  lemma LookingBackOverflows(s: seq<Byte>, i: nat, n: nat, max: nat)
    requires i <= |s|
    ensures var m := Machine(Compile(TGrammar(LOOKING_BACK)), s);
            !Final(Run(m, Start(i), n)) && Matcher.Overflows(m, Start(i), Matcher.Limit(max), max)
  {
    hide Compile;
    LookingBackCompiled();
    var m := Machine(Compile(TGrammar(LOOKING_BACK)), s);
    var stack := Push(Ret(2), Push(Back(GIVEUP, i, 0), Bottom));
    assert Step(m, Start(i)) == Running(4, i, stack, []);
    assert Matcher.Height(stack) == 2;
    if n > 0 { CallsItself(m, i, stack, n - 1); }
    var limit := Matcher.Limit(max);
    CallsItself(m, i, stack, limit - 1);
    assert Matcher.Height(Matcher.StackOf(Run(m, Start(i), limit))) > limit;
  }

  // -------------------------------------------------------------------------
  // A pattern that is rejected without need
  // -------------------------------------------------------------------------

  // The honest check is stricter than matching needs: `S <- -F &'a' -'a' S`, with a
  // sub-grammar `F` that always fails, never gets to its call.
  const NEVER_CALLING: seq<Tree> := Skipping(TFalse, TSeq(TAnd(TChar(97)), TSeq(TNot(TChar(97)), TCall(0))))

  lemma {:induction false} HonestIsCautious(below: nat, fuel: nat, s: seq<Byte>, i: nat)
    requires i <= |s|
    ensures AcceptedPattern(false, below, TGrammar(NEVER_CALLING))
    ensures !AcceptedPattern(true, below, TGrammar(NEVER_CALLING))
    ensures Eval(fuel, [], TGrammar(NEVER_CALLING), s, i) == NoMatch
  {
    hide AcceptedPattern, Eval;
    NeverCallingAccepted(below);
    NeverCallingRejected(below);
    NeverCallingFails(fuel, s, i);
  }

  lemma NeverCallingAccepted(below: nat)
    ensures AcceptedPattern(false, below, TGrammar(NEVER_CALLING))
  {
    var rs := NEVER_CALLING;
    var p := rs[0].p2;
    assert CalledBy(p.p2) == {0} && CalledBy(p) == {0};
    assert !CheckLoops(MAXRULES + below, rs, TChar(97));
    assert !CheckLoops(MAXRULES + below, rs, TNot(TChar(97)));
    assert !CheckLoops(MAXRULES + below, rs, TAnd(TChar(97)));
    assert !CheckLoops(MAXRULES + below, rs, p.p2);
    assert Accepted(false, below, p.p2);
    SkippingAccepted(below, TFalse, p);
  }

  lemma NeverCallingRejected(below: nat)
    ensures !AcceptedPattern(true, below, TGrammar(NEVER_CALLING))
  {
    var rs := NEVER_CALLING;
    CallsForEver(MAXRULES, below);
    VerifyExact(below, rs, rs[0], 0, false);
    assert 0 in UsedRules(rs) && !RuleVerified(true, below, rs, rs[0]);
  }

  lemma {:induction false} CallsForEver(n: nat, below: nat)
    ensures !LeftCalls(n, below, NEVER_CALLING, NEVER_CALLING[0])
  {
    var rs := NEVER_CALLING;
    var rest := rs[0].p2;
    assert Nullable(n + below, rs, rs[0].p1) && Nullable(n + below, rs, rest.p1) && Nullable(n + below, rs, rest.p2.p1);
    if n > 0 { CallsForEver(n - 1, below); }
    assert !LeftCalls(n, below, rs, TCall(0));
    assert !LeftCalls(n, below, rs, rest.p2);
    assert !LeftCalls(n, below, rs, rest);
  }

  lemma NeverCallingFails(fuel: nat, s: seq<Byte>, i: nat)
    requires i <= |s|
    ensures Eval(fuel, [], TGrammar(NEVER_CALLING), s, i) == NoMatch
  {
    var rs := NEVER_CALLING;
    var f := TGrammar([TFalse]);
    assert Eval(fuel, rs, f, s, i) == Eval(fuel, [TFalse], TFalse, s, i) == NoMatch;
    assert Eval(fuel, rs, TNot(f), s, i) == Matched(i, []);
    var r := Eval(fuel, rs, TChar(97), s, i);
    assert Eval(fuel, rs, TAnd(TChar(97)), s, i) == if r.Matched? then Matched(i, []) else NoMatch;
    assert Eval(fuel, rs, TNot(TChar(97)), s, i) == if r.Matched? then NoMatch else Matched(i, []);
    assert Eval(fuel, rs, rs[0].p2.p2, s, i) == NoMatch || !r.Matched?;
    assert Eval(fuel, rs, rs[0].p2, s, i) == NoMatch;
  }
}
