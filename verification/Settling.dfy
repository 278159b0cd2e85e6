// Correcting the calls.

module Settling {
  // In the code of an accepted pattern, as the compiler has it at each call of
  // `finaltarget`, every chain of jumps ends. In the code of a pattern that the
  // source accepts one may not (Pitfalls.dfy).

  import opened PegSyntax
  import opened Vm
  import opened CodeGen
  import opened CompilerCorrect
  import opened Peephole
  import opened Termination
  import opened Chains
  import opened Jumps

  // A pattern whose grammars can all be corrected.
  ghost predicate Settles(depth: nat, t: Tree)
    decreases t
  {
    match t
    case TRep(p) => Settles(depth, p)
    case TSeq(p1, p2) => Settles(depth, p1) && Settles(depth, p2)
    case TChoice(p1, p2) => Settles(depth, p1) && Settles(depth, p2)
    case TNot(p) => Settles(depth, p)
    case TAnd(p) => Settles(depth, p)
    case TBehind(_, p) => Settles(depth, p)
    case TCapture(_, _, p) => Settles(depth, p)
    case TGrammar(rs) =>
      && (forall k :: 0 <= k < |rs| ==> Settles(depth, rs[k]))
      && Contained(CorrectCalls(CodeRules(depth, rs, 0), Positions(depth, rs, 0, 0), 0))
    case _ => true
  }

  lemma LoadedAsIs(code: seq<Slot>, c: seq<Slot>, end: seq<Slot>)
    requires code == c + end
    ensures Loaded(code, 0, c, [])
  {
  }

  lemma OutsideEnds(code: seq<Slot>, q: int)
    requires q < 0 || q >= |code|
    ensures Ends(code, q)
  {
    NoJumpEnds(code, q);
  }

  // All chains end in the code of an accepted pattern that makes no calls.
  lemma {:induction false} PatternChainsEnd(depth: nat, below: nat, t: Tree)
    requires WellFormed([], t) && Accepted(true, below, t) && CalledBy(t) == {}
    ensures AllEnd(Code(depth, [], t, false, NoTest, AllBytes()) + [Inst(IEnd, 0, 0)])
  {
    hide Ends, Code, WellFormed, Accepted, Loaded;
    var sc := Scope(depth, [], []);
    var c := CodeIn(sc, t, false, NoTest, AllBytes());
    var code := c + [Inst(IEnd, 0, 0)];
    LoadedAsIs(code, c, [Inst(IEnd, 0, 0)]);
    NoJumpEnds(code, |c|);
    ChainsEnd(code, sc, below, t, false, NoTest, AllBytes(), 0);
    forall x ensures Ends(code, x) {
      if x < 0 || x > |c| { OutsideEnds(code, x); }
    }
  }

  lemma {:induction false} GrammarSettles(depth: nat, below: nat, t: Tree)
    requires WellFormed([], t) && Accepted(true, below, t) && t.TGrammar?
    ensures Contained(CorrectCalls(CodeRules(depth, t.rules, 0), Positions(depth, t.rules, 0, 0), 0))
  {
    hide Ends, CodeRules, CorrectCalls, Positions, WellFormed, Accepted, Loaded;
    var r := CorrectCalls(CodeRules(depth, t.rules, 0), Positions(depth, t.rules, 0, 0), 0);
    LoadedAsIs(r, r, []);
    OutsideEnds(r, |r|);
    CorrectedEnds(r, depth, below, t, 0, []);
    forall x ensures Ends(r, x) {
      if x < 0 || x > |r| { OutsideEnds(r, x); }
    }
    forall q: nat, n: nat ensures FinalTarget(r, q, n) >= -1 {
      StaysInside(depth, below, t, q, n);
    }
  }

  // A chain that led to `x`, in front of the rules, would never end with a jump
  // to itself at `x`. But chains end whatever is there.
  lemma {:induction false} StaysInside(depth: nat, below: nat, t: Tree, q: nat, n: nat)
    requires WellFormed([], t) && Accepted(true, below, t) && t.TGrammar?
    ensures FinalTarget(CorrectCalls(CodeRules(depth, t.rules, 0), Positions(depth, t.rules, 0, 0), 0), q, n) >= -1
  {
    hide Ends, CodeRules, CorrectCalls, Positions, WellFormed, Accepted, Loaded, FinalTarget;
    var r := CorrectCalls(CodeRules(depth, t.rules, 0), Positions(depth, t.rules, 0, 0), 0);
    var x := FinalTarget(r, q, n);
    if x < -1 {
      var front := Jump(IJmp, 0) + seq(-x - 2, _ => Unset);
      var code := front + r;
      assert |front| == -x;
      LoadedBehind(front, r);
      OutsideEnds(code, |code|);
      CorrectedEnds(code, depth, below, t, |front|, []);
      if q < |r| {
        assert Ends(code, |front| + q);
        assert code[0] == Inst(IJmp, 0, 0) && code[1] == Offset(0);
        ChainIntoTrap(code, front, r, q, n);
      } else {
        ChainStops(r, q, n);
      }
    }
  }

  lemma LoadedBehind(front: seq<Slot>, r: seq<Slot>)
    ensures Loaded(front + r, |front|, r, [])
  {
  }

  lemma {:induction false} ChainIntoTrap(code: seq<Slot>, front: seq<Slot>, r: seq<Slot>, q: int, n: nat)
    requires code == front + r && IsJump(code, 0) && code[1].off == 0
    requires FinalTarget(r, q, n) == -|front| && Ends(code, |front| + q)
    ensures false
    decreases n
  {
    if n == 0 || !IsJump(r, q) {
      var k: nat :| !IsJump(code, FinalTarget(code, 0, k));
      Trapped(code, k);
    } else {
      assert code[|front| + q] == r[q] && code[|front| + q + 1] == r[q + 1];
      StillEnds(code, |front| + q);
      ChainIntoTrap(code, front, r, q + r[q + 1].off, n - 1);
    }
  }

  lemma {:induction false} Trapped(code: seq<Slot>, k: nat)
    requires IsJump(code, 0) && code[1].off == 0
    ensures FinalTarget(code, 0, k) == 0
    decreases k
  {
    if k > 0 { Trapped(code, k - 1); }
  }

  lemma {:induction false} AcceptedSettles(depth: nat, below: nat, rules: seq<Tree>, t: Tree)
    requires WellFormed(rules, t) && Accepted(true, below, t)
    ensures Settles(depth, t)
    decreases t
  {
    hide AllEnd, RuleVerified, UsedRules, CodeRules, CorrectCalls, Positions;
    match t
    case TRep(p) => AcceptedSettles(depth, below, rules, p);
    case TSeq(p1, p2) =>
      AcceptedSettles(depth, below, rules, p1);
      AcceptedSettles(depth, below, rules, p2);
    case TChoice(p1, p2) =>
      AcceptedSettles(depth, below, rules, p1);
      AcceptedSettles(depth, below, rules, p2);
    case TNot(p) => AcceptedSettles(depth, below, rules, p);
    case TAnd(p) => AcceptedSettles(depth, below, rules, p);
    case TBehind(_, p) => AcceptedSettles(depth, below, rules, p);
    case TCapture(_, _, p) => AcceptedSettles(depth, below, rules, p);
    case TGrammar(rs) =>
      GrammarSettles(depth, below, t);
      forall k | 0 <= k < |rs| ensures Settles(depth, rs[k]) {
        AcceptedSettles(depth, below, rs, rs[k]);
      }
    case _ =>
  }

  // So in the compiled code of such a pattern no instruction leads to a jump, and no
  // jump to an instruction that it could be itself.
  lemma CompiledFinishes(depth: nat, below: nat, t: Tree)
    requires WellFormed([], t) && Accepted(true, below, t) && CalledBy(t) == {}
    ensures var r := PeepholeFrom(Code(depth, [], t, false, NoTest, AllBytes()) + [Inst(IEnd, 0, 0)], 0);
            forall x :: x in Walk(r, 0) ==> Finished(r, x)
  {
    hide AllEnd, Code, WellFormed, Accepted, Finished;
    PatternChainsEnd(depth, below, t);
    PeepholeFinishes(Code(depth, [], t, false, NoTest, AllBytes()) + [Inst(IEnd, 0, 0)], 0);
  }
}
