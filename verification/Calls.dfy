// Resolving the calls of a grammar (`correctcalls`): which slots of the code
// change, and what the calls lead to afterwards.

module Calls {
  import opened PegSyntax
  import opened Analysis
  import opened Vm
  import opened CodeGen

  // Every instruction is followed by its own operand slots; an open call keeps
  // an unset offset.
  ghost predicate Laid(code: seq<Slot>) {
    forall x {:trigger code[x]} :: 0 <= x < |code| && code[x].Inst? ==> InstLaid(code, x)
  }

  ghost predicate InstLaid(code: seq<Slot>, x: nat)
    requires x < |code| && code[x].Inst?
  {
    && x + SizeI(code[x].op) <= |code|
    && (forall y :: x < y < x + SizeI(code[x].op) ==> !code[y].Inst?)
    && (code[x].op == IOpenCall ==> code[x + 1].Unset?)
  }

  lemma LaidConcat(p: seq<Slot>, q: seq<Slot>)
    requires Laid(p) && Laid(q)
    ensures Laid(p + q)
  {
    var r := p + q;
    forall x | 0 <= x < |r| && r[x].Inst? ensures InstLaid(r, x) {
      if x < |p| {
        assert InstLaid(p, x);
      } else {
        assert r[x] == q[x - |p|];
        assert InstLaid(q, x - |p|);
        forall y | x < y < x + SizeI(r[x].op) ensures !r[y].Inst? {
          assert r[y] == q[y - |p|];
        }
      }
    }
  }

  lemma TestLaid(cs: Charset, off: int)
    ensures Laid(CodeTest(cs, off))
  {
  }

  // -------------------------------------------------------------------------
  // Correcting the calls
  // -------------------------------------------------------------------------

  // A chain of jumps that ends in a return only passes settled slots.
  lemma {:induction false} ChainKept(code: seq<Slot>, other: seq<Slot>, shift: int, q: int, n: nat)
    requires forall x :: 0 <= x < |code| && (code[x].Offset? || (code[x].Inst? && code[x].op != IOpenCall)) ==>
               0 <= x + shift < |other| && other[x + shift] == code[x]
    requires IsOp(code, FinalTarget(code, q, n), IRet)
    ensures FinalTarget(other, q + shift, n) == FinalTarget(code, q, n) + shift
    ensures IsOp(other, FinalTarget(other, q + shift, n), IRet)
    decreases n
  {
    if n > 0 && IsJump(code, q) {
      assert other[q + shift] == code[q] && other[q + 1 + shift] == code[q + 1];
      ChainKept(code, other, shift, q + code[q + 1].off, n - 1);
    } else {
      assert other[q + shift] == code[q];
    }
  }

  predicate Settled(x: Slot) { x.Offset? || x.Buff? || (x.Inst? && x.op != IOpenCall) }

  predicate OpenTo(code: seq<Slot>, x: int, n: nat) {
    IsOp(code, x, IOpenCall) && 0 <= code[x].key < n
  }

  // What correcting the calls from address `i` on makes of `code`.
  ghost predicate Corrected(code: seq<Slot>, positions: seq<nat>, i: nat, r: seq<Slot>) {
    && |r| == |code| && Laid(r)
    && (forall x :: 0 <= x < |code| && (x < i || Settled(code[x]) || (code[x].Inst? && !OpenTo(code, x, |positions|))) ==>
          r[x] == code[x])
    && (forall x :: i <= x < |code| && OpenTo(code, x, |positions|) ==> CallsRule(r, x, positions[code[x].key]))
    && (forall x :: 0 <= x < |code| && r[x].Unset? ==> code[x].Unset?)
    && (forall x :: 0 <= x < |code| && IsOp(r, x, IOpenCall) ==> r[x] == code[x])
  }

  lemma {:induction false} CorrectCallsResult(code: seq<Slot>, positions: seq<nat>, i: nat)
    requires Laid(code)
    ensures Corrected(code, positions, i, CorrectCalls(code, positions, i))
    decreases |code| - i
  {
    hide Laid, CallsRule, FinalTarget;
    if i >= |code| {
    } else if IsOp(code, i, IOpenCall) && i + 1 < |code| && 0 <= code[i].key < |positions| {
      var op := if IsOp(code, FinalTarget(code, i + 2, ChainBound(code)), IRet) then IJmp else ICall;
      var fixed := code[i := code[i].(op := op)][i + 1 := Offset(positions[code[i].key] - i)];
      FixedLaid(code, i, op, positions[code[i].key] - i);
      CorrectCallsResult(fixed, positions, i + 2);
      CallFixed(code, positions, i, CorrectCalls(fixed, positions, i + 2));
    } else {
      OpenCallHasRoom(code, i);
      CorrectCallsResult(code, positions, i + 1);
    }
  }

  lemma OpenCallHasRoom(code: seq<Slot>, i: nat)
    requires Laid(code) && i < |code|
    ensures IsOp(code, i, IOpenCall) ==> i + 1 < |code| && code[i + 1].Unset?
  {
    if IsOp(code, i, IOpenCall) { assert InstLaid(code, i); }
  }

  // One call corrected, and then those after it.
  lemma CallFixed(code: seq<Slot>, positions: seq<nat>, i: nat, r: seq<Slot>)
    requires Laid(code) && i + 1 < |code| && OpenTo(code, i, |positions|)
    requires var op := if IsOp(code, FinalTarget(code, i + 2, ChainBound(code)), IRet) then IJmp else ICall;
             Corrected(code[i := code[i].(op := op)][i + 1 := Offset(positions[code[i].key] - i)], positions, i + 2, r)
    ensures Corrected(code, positions, i, r)
  {
    hide Laid, FinalTarget;
    var op := if IsOp(code, FinalTarget(code, i + 2, ChainBound(code)), IRet) then IJmp else ICall;
    var fixed := code[i := code[i].(op := op)][i + 1 := Offset(positions[code[i].key] - i)];
    OpenCallHasRoom(code, i);
    assert r[i] == fixed[i] && r[i + 1] == fixed[i + 1];
    forall x | 0 <= x < |code| && Settled(code[x]) ensures r[x] == code[x] {
      assert fixed[x] == code[x];
    }
    if op == IJmp {
      ChainKept(code, r, 0, i + 2, ChainBound(code));
      assert LeadsToReturn(r, i + 2);
    }
    assert CallsRule(r, i, positions[code[i].key]);
    forall x | i <= x < |code| && OpenTo(code, x, |positions|) ensures CallsRule(r, x, positions[code[x].key]) {
      if x != i {
        assert x != i + 1;
        assert OpenTo(fixed, x, |positions|) && fixed[x] == code[x];
      }
    }
    forall x | 0 <= x < |code| && (x < i || (code[x].Inst? && !OpenTo(code, x, |positions|))) ensures r[x] == code[x] {
      assert x != i && x != i + 1 && fixed[x] == code[x];
    }
    forall x | 0 <= x < |code| && r[x].Unset? ensures code[x].Unset? {
      assert fixed[x].Unset?;
    }
    forall x | 0 <= x < |code| && IsOp(r, x, IOpenCall) ensures r[x] == code[x] {
      assert r[x] == fixed[x] && x != i && x != i + 1;
    }
  }

  lemma FixedLaid(code: seq<Slot>, i: nat, op: Opcode, off: int)
    requires Laid(code) && i + 1 < |code| && IsOp(code, i, IOpenCall) && (op == IJmp || op == ICall)
    ensures Laid(code[i := code[i].(op := op)][i + 1 := Offset(off)])
  {
    var fixed := code[i := code[i].(op := op)][i + 1 := Offset(off)];
    assert InstLaid(code, i);
    forall x | 0 <= x < |fixed| && fixed[x].Inst? ensures InstLaid(fixed, x) {
      assert InstLaid(code, x);
      if x == i {
        assert SizeI(op) == 2;
      } else {
        assert fixed[x] == code[x];
        forall y | x < y < x + SizeI(fixed[x].op) ensures !fixed[y].Inst? {
          assert y != i;
        }
      }
    }
  }

  lemma {:induction false} CodeLaid(depth: nat, rules: seq<Tree>, t: Tree, opt: bool, tt: Test, fl: Charset)
    ensures Laid(Code(depth, rules, t, opt, tt, fl))
    decreases t, 3, 0
  {
    hide Laid, GetFirst, Headfail, CheckAux, FixedLen, HasCaptures, CodeChoice, CodeRep, CodeNot, CodeAnd, CodeCapture, CodeGrammar;
    match t
    case TChoice(_, _) => ChoiceLaid(depth, rules, t, opt, fl);
    case TRep(_) => RepLaid(depth, rules, t, opt, fl);
    case TNot(_) => NotLaid(depth, rules, t);
    case TAnd(_) => AndLaid(depth, rules, t, tt);
    case TCapture(_, _, _) => CaptureLaid(depth, rules, t, tt, fl);
    case TBehind(n, p) =>
      CodeLaid(depth, rules, p, false, NoTest, AllBytes());
      OneLaid(Inst(IBehind, n, 0));
      NothingLaid();
      LaidConcat(if n > 0 then [Inst(IBehind, n, 0)] else [], Code(depth, rules, p, false, NoTest, AllBytes()));
    case TGrammar(rs) => GrammarLaid(depth, t);
    case TSeq(p1, p2) =>
      var fl1 := if NeedFollow(p1) then GetFirst(depth, rules, p2, fl).cs else AllBytes();
      var tt2 := if Length(rules, p1) != 0 then NoTest else tt;
      CodeLaid(depth, rules, p1, false, tt, fl1);
      CodeLaid(depth, rules, p2, opt, tt2, fl);
      LaidConcat(Code(depth, rules, p1, false, tt, fl1), Code(depth, rules, p2, opt, tt2, fl));
    case _ => LeafLaid(depth, rules, t, opt, tt, fl);
  }

  lemma OneLaid(x: Slot)
    requires x.Inst? && SizeI(x.op) == 1
    ensures Laid([x])
  {
  }

  lemma NothingLaid()
    ensures Laid([])
  {
  }

  lemma JumpLaid(op: Opcode, off: int)
    requires Labelled(op) && op != ITestSet && op != IOpenCall
    ensures Laid(Jump(op, off))
  {
  }

  lemma LeafLaid(depth: nat, rules: seq<Tree>, t: Tree, opt: bool, tt: Test, fl: Charset)
    requires t.TChar? || t.TSet? || t.TAny? || t.TTrue? || t.TFalse? || t.TCall?
    ensures Laid(Code(depth, rules, t, opt, tt, fl))
  {
  }

  lemma {:induction false} ChoiceLaid(depth: nat, rules: seq<Tree>, t: Tree, opt: bool, fl: Charset)
    requires t.TChoice?
    ensures Laid(CodeChoice(depth, rules, t.p1, t.p2, opt, fl))
    decreases t, 2, 0
  {
    hide Laid, GetFirst, ChoiceByTest, Code, CodeTest;
    var TChoice(p1, p2) := t;
    var f1 := GetFirst(depth, rules, p1, AllBytes());
    var c2 := Code(depth, rules, p2, opt, NoTest, fl);
    NothingLaid();
    CodeLaid(depth, rules, p2, opt, NoTest, fl);
    if ChoiceByTest(depth, rules, p1, p2, fl) {
      var c1 := Code(depth, rules, p1, false, TestOf(f1.cs), fl);
      var jmp := if p2.TTrue? then [] else Jump(IJmp, 2 + |c2|);
      CodeLaid(depth, rules, p1, false, TestOf(f1.cs), fl);
      JumpLaid(IJmp, 2 + |c2|);
      var test := CodeTest(f1.cs, TestSize(f1.cs) + |c1| + |jmp|);
      TestLaid(f1.cs, TestSize(f1.cs) + |c1| + |jmp|);
      LaidConcat(test, c1);
      LaidConcat(test + c1, jmp);
      LaidConcat(test + c1 + jmp, c2);
    } else if opt && p2.TTrue? {
      CodeLaid(depth, rules, p1, true, NoTest, AllBytes());
      JumpLaid(IPartialCommit, 2);
      LaidConcat(Jump(IPartialCommit, 2), Code(depth, rules, p1, true, NoTest, AllBytes()));
    } else {
      var tt1 := if f1.empty then NoTest else TestOf(f1.cs);
      var c1 := Code(depth, rules, p1, p2.TTrue?, tt1, AllBytes());
      var off := TestSize(f1.cs) + 2 + |c1| + 2;
      var test := if f1.empty then [] else CodeTest(f1.cs, off);
      TestLaid(f1.cs, off);
      CodeLaid(depth, rules, p1, p2.TTrue?, tt1, AllBytes());
      JumpLaid(IChoice, 2 + |c1| + 2);
      JumpLaid(ICommit, 2 + |c2|);
      LaidConcat(test, Jump(IChoice, 2 + |c1| + 2));
      LaidConcat(test + Jump(IChoice, 2 + |c1| + 2), c1);
      LaidConcat(test + Jump(IChoice, 2 + |c1| + 2) + c1, Jump(ICommit, 2 + |c2|));
      LaidConcat(test + Jump(IChoice, 2 + |c1| + 2) + c1 + Jump(ICommit, 2 + |c2|), c2);
    }
  }

  lemma SpanLaid(cs: Charset)
    ensures Laid([Inst(ISpan, 0, 0)] + Buffer(cs))
  {
  }

  lemma {:induction false} RepLaid(depth: nat, rules: seq<Tree>, t: Tree, opt: bool, fl: Charset)
    requires t.TRep?
    ensures Laid(CodeRep(depth, rules, t.p, opt, fl))
    decreases t, 2, 0
  {
    hide Laid, GetFirst, RepByTest, Code, CodeTest, Buffer;
    var p := t.p;
    var f := GetFirst(depth, rules, p, AllBytes());
    NothingLaid();
    if ToCharset(p).Some? {
      SpanLaid(ToCharset(p).value);
    } else if RepByTest(depth, rules, p, fl) {
      var c := Code(depth, rules, p, false, TestOf(f.cs), AllBytes());
      var size := TestSize(f.cs) + |c|;
      CodeLaid(depth, rules, p, false, TestOf(f.cs), AllBytes());
      TestLaid(f.cs, size + 2);
      JumpLaid(IJmp, -size);
      LaidConcat(CodeTest(f.cs, size + 2), c);
      LaidConcat(CodeTest(f.cs, size + 2) + c, Jump(IJmp, -size));
    } else {
      var c := Code(depth, rules, p, false, NoTest, AllBytes());
      var start := if opt then Jump(IPartialCommit, 2) else Jump(IChoice, 2 + |c| + 2);
      var off := TestSize(f.cs) + 2 + |c| + 2;
      var test := if f.empty then [] else CodeTest(f.cs, off);
      CodeLaid(depth, rules, p, false, NoTest, AllBytes());
      TestLaid(f.cs, off);
      JumpLaid(IPartialCommit, 2);
      JumpLaid(IPartialCommit, -|c|);
      JumpLaid(IChoice, 2 + |c| + 2);
      LaidConcat(test, start);
      LaidConcat(test + start, c);
      LaidConcat(test + start + c, Jump(IPartialCommit, -|c|));
    }
  }

  lemma {:induction false} NotLaid(depth: nat, rules: seq<Tree>, t: Tree)
    requires t.TNot?
    ensures Laid(CodeNot(depth, rules, t.p))
    decreases t, 2, 0
  {
    hide Laid, GetFirst, Headfail, Code, CodeTest;
    var f := GetFirst(depth, rules, t.p, AllBytes());
    var c := Code(depth, rules, t.p, false, NoTest, AllBytes());
    CodeLaid(depth, rules, t.p, false, NoTest, AllBytes());
    NothingLaid();
    JumpLaid(IChoice, 2 + |c| + 1);
    OneLaid(Inst(IFailTwice, 0, 0));
    OneLaid(Inst(IFail, 0, 0));
    LaidConcat(Jump(IChoice, 2 + |c| + 1), c);
    LaidConcat(Jump(IChoice, 2 + |c| + 1) + c, [Inst(IFailTwice, 0, 0)]);
    var body :=
      if Headfail(depth, rules, t.p) then [Inst(IFail, 0, 0)]
      else Jump(IChoice, 2 + |c| + 1) + c + [Inst(IFailTwice, 0, 0)];
    TestLaid(f.cs, TestSize(f.cs) + |body|);
    LaidConcat(if f.empty then [] else CodeTest(f.cs, TestSize(f.cs) + |body|), body);
  }

  lemma {:induction false} AndLaid(depth: nat, rules: seq<Tree>, t: Tree, tt: Test)
    requires t.TAnd?
    ensures Laid(CodeAnd(depth, rules, t.p, tt))
    decreases t, 2, 0
  {
    hide Laid, FixedLen, HasCaptures, Code;
    var n := Length(rules, t.p);
    var c := Code(depth, rules, t.p, false, tt, AllBytes());
    CodeLaid(depth, rules, t.p, false, tt, AllBytes());
    NothingLaid();
    OneLaid(Inst(IBehind, n, 0));
    OneLaid(Inst(IFail, 0, 0));
    JumpLaid(IChoice, 2 + |c| + 2);
    JumpLaid(IBackCommit, 3);
    LaidConcat(c, if n > 0 then [Inst(IBehind, n, 0)] else []);
    LaidConcat(Jump(IChoice, 2 + |c| + 2), c);
    LaidConcat(Jump(IChoice, 2 + |c| + 2) + c, Jump(IBackCommit, 3));
    LaidConcat(Jump(IChoice, 2 + |c| + 2) + c + Jump(IBackCommit, 3), [Inst(IFail, 0, 0)]);
  }

  lemma {:induction false} CaptureLaid(depth: nat, rules: seq<Tree>, t: Tree, tt: Test, fl: Charset)
    requires t.TCapture?
    ensures Laid(CodeCapture(depth, rules, t.kind, t.key, t.p, tt, fl))
    decreases t, 2, 0
  {
    hide Laid, FixedLen, HasCaptures, Code;
    var TCapture(kind, key, p) := t;
    var c := Code(depth, rules, p, false, tt, fl);
    CodeLaid(depth, rules, p, false, tt, fl);
    OneLaid(Inst(IFullCapture, kind + 16 * Length(rules, p), key));
    OneLaid(Inst(IOpenCapture, kind, key));
    OneLaid(Inst(ICloseCapture, C_CLOSE, 0));
    LaidConcat(c, [Inst(IFullCapture, kind + 16 * Length(rules, p), key)]);
    LaidConcat([Inst(IOpenCapture, kind, key)], c);
    LaidConcat([Inst(IOpenCapture, kind, key)] + c, [Inst(ICloseCapture, C_CLOSE, 0)]);
  }

  lemma {:induction false} GrammarLaid(depth: nat, t: Tree)
    requires t.TGrammar?
    ensures Laid(CodeGrammar(depth, t.rules))
    decreases t, 2, 0
  {
    hide Laid, Code, CodeRules, CorrectCalls;
    var rs := t.rules;
    var body := CodeRules(depth, rs, 0);
    CodeRulesLaid(depth, rs, 0);
    CorrectCallsResult(body, Positions(depth, rs, 0, 0), 0);
    JumpLaid(ICall, 4);
    JumpLaid(IJmp, 2 + |body|);
    LaidConcat(Jump(ICall, 4), Jump(IJmp, 2 + |body|));
    LaidConcat(Jump(ICall, 4) + Jump(IJmp, 2 + |body|), CorrectCalls(body, Positions(depth, rs, 0, 0), 0));
  }

  lemma {:induction false} CodeRulesLaid(depth: nat, rs: seq<Tree>, k: nat)
    ensures Laid(CodeRules(depth, rs, k))
    decreases rs, |rs| - k, 0
  {
    hide Laid, Code;
    NothingLaid();
    OneLaid(Inst(IRet, 0, 0));
    if k < |rs| {
      var c := Code(depth, rs, rs[k], false, NoTest, AllBytes());
      CodeLaid(depth, rs, rs[k], false, NoTest, AllBytes());
      CodeRulesLaid(depth, rs, k + 1);
      LaidConcat(c, [Inst(IRet, 0, 0)]);
      LaidConcat(c + [Inst(IRet, 0, 0)], CodeRules(depth, rs, k + 1));
    }
  }

  // -------------------------------------------------------------------------
  // A grammar in place
  // -------------------------------------------------------------------------

  lemma {:induction false} PositionsCount(depth: nat, rs: seq<Tree>, k: nat, base: nat)
    requires k <= |rs|
    ensures |Positions(depth, rs, k, base)| == |rs| - k
    decreases |rs| - k
  {
    if k < |rs| {
      PositionsCount(depth, rs, k + 1, base + |Code(depth, rs, rs[k], false, NoTest, AllBytes())| + 1);
    }
  }

  function Shifted(positions: seq<nat>, base: int): (r: seq<int>)
    ensures |r| == |positions|
  {
    seq(|positions|, k requires 0 <= k < |positions| => base + positions[k])
  }

  // Code whose calls have been corrected, wherever it is placed, holds the
  // original code with its calls resolved.
  lemma CorrectedLoaded(code: seq<Slot>, base: int, body: seq<Slot>, positions: seq<nat>, outer: seq<int>)
    requires Laid(body) && Loaded(code, base, CorrectCalls(body, positions, 0), outer)
    ensures Loaded(code, base, body, Shifted(positions, base))
  {
    hide Laid, CallsRule, CorrectCalls;
    CorrectCallsResult(body, positions, 0);
    var r := CorrectCalls(body, positions, 0);
    forall x | 0 <= x < |r| && Settled(r[x]) ensures code[base + x] == r[x] {
      assert SlotFits(code, base + x, r[x], outer);
    }
    forall x | 0 <= x < |body| ensures SlotFits(code, base + x, body[x], Shifted(positions, base)) {
      assert SlotFits(code, base + x, r[x], outer);
      if IsOp(body, x, IOpenCall) && 0 <= body[x].key < |positions| {
        CallShifts(code, base, r, x, positions[body[x].key], outer);
      }
    }
  }

  lemma CallShifts(code: seq<Slot>, base: int, r: seq<Slot>, x: int, target: int, outer: seq<int>)
    requires Loaded(code, base, r, outer) && CallsRule(r, x, target)
    ensures CallsRule(code, base + x, base + target)
  {
    forall y | 0 <= y < |r| && Settled(r[y]) ensures code[base + y] == r[y] {
      assert SlotFits(code, base + y, r[y], outer);
    }
    if !IsOp(r, x, ICall) {
      var n: nat :| IsOp(r, FinalTarget(r, x + 2, n), IRet);
      ChainKept(r, code, base, x + 2, n);
    }
  }

  lemma {:induction false} RulesLoaded(code: seq<Slot>, depth: nat, rs: seq<Tree>, k: nat, start: nat, base: int,
                                       positions: seq<int>, j: nat)
    requires k <= j < |rs| && Loaded(code, base + start, CodeRules(depth, rs, k), positions)
    ensures |Positions(depth, rs, k, start)| == |rs| - k
    ensures Loaded(code, base + Positions(depth, rs, k, start)[j - k],
                   Code(depth, rs, rs[j], false, NoTest, AllBytes()) + [Inst(IRet, 0, 0)], positions)
    decreases |rs| - k
  {
    hide Loaded, Code;
    PositionsCount(depth, rs, k, start);
    var c := Code(depth, rs, rs[k], false, NoTest, AllBytes()) + [Inst(IRet, 0, 0)];
    LoadedSplit(code, base + start, c, CodeRules(depth, rs, k + 1), positions);
    var ps := Positions(depth, rs, k, start);
    assert ps == [start] + Positions(depth, rs, k + 1, start + |c|);
    if k < j {
      RulesLoaded(code, depth, rs, k + 1, start + |c|, base, positions, j);
      assert ps[j - k] == Positions(depth, rs, k + 1, start + |c|)[j - (k + 1)];
    }
  }

  // Slots without open calls are skipped.
  lemma {:induction false} SkipsOther(code: seq<Slot>, positions: seq<nat>, i: nat, j: nat)
    requires i <= j <= |code| && forall x :: i <= x < j ==> !IsOp(code, x, IOpenCall)
    ensures CorrectCalls(code, positions, i) == CorrectCalls(code, positions, j)
    decreases j - i
  {
    if i < j { SkipsOther(code, positions, i + 1, j); }
  }
}
