// The code that lpcode.c generates for a tree, as a function of the tree.
//
// Offsets are relative, so the code of a tree does not depend on where it is
// placed. Emit.dfy builds the same code slot by slot, as the compiler does.

module CodeGen {
  import opened PegSyntax
  import opened Analysis
  import opened Vm

  const MAXBEHIND := 255
  const MAXOFF := 15

  // -------------------------------------------------------------------------
  // Character sets and tests
  // -------------------------------------------------------------------------

  datatype CharsetKind = EmptySet | Single(c: Byte) | FullSet | OtherSet

  // `charsettype`
  function CharsetType(cs: Charset): (k: CharsetKind)
    ensures k.EmptySet? <==> cs == {}
    ensures k.Single? ==> cs == {k.c}
    ensures k.FullSet? <==> cs == AllBytes()
  {
    assert 0 in AllBytes();
    if cs == {} then EmptySet
    else if |cs| == 1 then
      OnlyMember(cs);
      var c :| c in cs;
      FullIsNotSingle(c);
      Single(c)
    else if cs == AllBytes() then FullSet
    else OtherSet
  }

  lemma OnlyMember(cs: Charset)
    requires |cs| == 1
    ensures exists c :: cs == {c}
    ensures forall a, b :: a in cs && b in cs ==> a == b
  {
    var c :| c in cs;
    assert |cs - {c}| == 0;
    assert cs == {c};
  }

  lemma FullIsNotSingle(c: Byte)
    ensures AllBytes() != {c}
  {
    assert 0 in AllBytes() && 1 in AllBytes();
  }

  lemma SingleIsSingle(c: Byte)
    ensures CharsetType({c}) == Single(c)
  {
  }

  // The members of `cs` that slot `k` of a buffer holds.
  function Part(cs: Charset, k: int): Charset {
    set c | c in cs && c / 32 == k
  }

  function Buffer(cs: Charset): (b: seq<Slot>)
    ensures |b| == BUFF_SLOTS
  {
    seq(BUFF_SLOTS, k => Buff(Part(cs, k)))
  }

  // What `tt` tells the code generator about the test that guards the code.
  datatype Test = NoTest | CharTest(c: Byte) | SetTest(cs: Charset)

  // `codetestset`, jumping by `off` when the test fails. A test for the empty
  // set always jumps.
  function CodeTest(cs: Charset, off: int): seq<Slot> {
    match CharsetType(cs)
    case EmptySet => [Inst(IJmp, 0, 0), Offset(off)]
    case FullSet => [Inst(ITestAny, 0, 0), Offset(off)]
    case Single(c) => [Inst(ITestChar, c, 0), Offset(off)]
    case OtherSet => [Inst(ITestSet, 0, 0), Offset(off)] + Buffer(cs)
  }

  function TestSize(cs: Charset): nat {
    if CharsetType(cs).OtherSet? then 2 + BUFF_SLOTS else 2
  }

  function TestOf(cs: Charset): Test {
    match CharsetType(cs)
    case Single(c) => CharTest(c)
    case OtherSet => SetTest(cs)
    case _ => NoTest
  }

  // `codechar`
  function CodeChar(c: Byte, tt: Test): seq<Slot> {
    if tt == CharTest(c) then [Inst(IAny, 0, 0)] else [Inst(IChar, c, 0)]
  }

  // `codecharset`
  function CodeCharset(cs: Charset, tt: Test): seq<Slot> {
    match CharsetType(cs)
    case EmptySet => [Inst(IFail, 0, 0)]
    case FullSet => [Inst(IAny, 0, 0)]
    case Single(c) => CodeChar(c, tt)
    case OtherSet => if tt == SetTest(cs) then [Inst(IAny, 0, 0)] else [Inst(ISet, 0, 0)] + Buffer(cs)
  }

  function Jump(op: Opcode, off: int): seq<Slot> {
    [Inst(op, 0, 0), Offset(off)]
  }

  // -------------------------------------------------------------------------
  // Jump chains and calls
  // -------------------------------------------------------------------------

  predicate IsJump(code: seq<Slot>, q: int) {
    HasInst(code, q) && code[q].op == IJmp && HasOffset(code, q)
  }

  // `finaltarget`, following at most `most` jumps.
  function FinalTarget(code: seq<Slot>, q: int, most: nat): int
    decreases most
  {
    if most == 0 || !IsJump(code, q) then q
    else FinalTarget(code, q + code[q + 1].off, most - 1)
  }

  // More jumps than a chain without a cycle can hold.
  function ChainBound(code: seq<Slot>): nat { 2 * |code| + 4 }

  predicate IsOp(code: seq<Slot>, q: int, op: Opcode) {
    HasInst(code, q) && code[q].op == op
  }

  // `correctcalls` from address `i` on: an open call becomes a call to its
  // rule, or a jump to it when all that follows is a return.
  function CorrectCalls(code: seq<Slot>, positions: seq<nat>, i: nat): (r: seq<Slot>)
    ensures |r| == |code|
    decreases |code| - i
  {
    if i >= |code| then code
    else if IsOp(code, i, IOpenCall) && i + 1 < |code| && 0 <= code[i].key < |positions| then
      var op := if IsOp(code, FinalTarget(code, i + 2, ChainBound(code)), IRet) then IJmp else ICall;
      var fixed := code[i := code[i].(op := op)][i + 1 := Offset(positions[code[i].key] - i)];
      CorrectCalls(fixed, positions, i + 2)
    else
      CorrectCalls(code, positions, i + 1)
  }

  // -------------------------------------------------------------------------
  // Code of a tree
  // -------------------------------------------------------------------------

  // `opt`: the code is the last thing inside an optional pattern and may reuse
  // the choice of that pattern. `tt`: the test that guards the code. `fl`: the
  // follow set. `depth` is passed to the analyses.
  function Code(depth: nat, rules: seq<Tree>, t: Tree, opt: bool, tt: Test, fl: Charset): seq<Slot>
    decreases t, 1, 0
  {
    match t
    case TChar(c) => CodeChar(c, tt)
    case TAny => [Inst(IAny, 0, 0)]
    case TSet(cs) => CodeCharset(cs, tt)
    case TTrue => []
    case TFalse => [Inst(IFail, 0, 0)]
    case TChoice(p1, p2) => CodeChoice(depth, rules, p1, p2, opt, fl)
    case TRep(p) => CodeRep(depth, rules, p, opt, fl)
    case TBehind(n, p) =>
      (if n > 0 then [Inst(IBehind, n, 0)] else []) + Code(depth, rules, p, false, NoTest, AllBytes())
    case TNot(p) => CodeNot(depth, rules, p)
    case TAnd(p) => CodeAnd(depth, rules, p, tt)
    case TCapture(kind, key, p) => CodeCapture(depth, rules, kind, key, p, tt, fl)
    case TGrammar(rs) => CodeGrammar(depth, rs)
    case TCall(k) => [Inst(IOpenCall, 0, k), Unset]
    case TSeq(p1, p2) =>
      var fl1 := if NeedFollow(p1) then GetFirst(depth, rules, p2, fl).cs else AllBytes();
      var tt2 := if Length(rules, p1) != 0 then NoTest else tt;
      Code(depth, rules, p1, false, tt, fl1) + Code(depth, rules, p2, opt, tt2, fl)
  }

  // The first branch of `codechoice`: the test alone decides.
  predicate ChoiceByTest(depth: nat, rules: seq<Tree>, p1: Tree, p2: Tree, fl: Charset) {
    var f1 := GetFirst(depth, rules, p1, AllBytes());
    Headfail(depth, rules, p1) || (!f1.empty && f1.cs !! GetFirst(depth, rules, p2, fl).cs)
  }

  function CodeChoice(depth: nat, rules: seq<Tree>, p1: Tree, p2: Tree, opt: bool, fl: Charset): seq<Slot>
    decreases TChoice(p1, p2), 0, 0
  {
    var f1 := GetFirst(depth, rules, p1, AllBytes());
    var emptyp2 := p2.TTrue?;
    if ChoiceByTest(depth, rules, p1, p2, fl) then
      var c1 := Code(depth, rules, p1, false, TestOf(f1.cs), fl);
      var c2 := Code(depth, rules, p2, opt, NoTest, fl);
      var jmp := if emptyp2 then [] else Jump(IJmp, 2 + |c2|);
      CodeTest(f1.cs, TestSize(f1.cs) + |c1| + |jmp|) + c1 + jmp + c2
    else if opt && emptyp2 then
      Jump(IPartialCommit, 2) + Code(depth, rules, p1, true, NoTest, AllBytes())
    else
      var c1 := Code(depth, rules, p1, emptyp2, if f1.empty then NoTest else TestOf(f1.cs), AllBytes());
      var c2 := Code(depth, rules, p2, opt, NoTest, fl);
      var test := if f1.empty then [] else CodeTest(f1.cs, TestSize(f1.cs) + 2 + |c1| + 2);
      test + Jump(IChoice, 2 + |c1| + 2) + c1 + Jump(ICommit, 2 + |c2|) + c2
  }

  // The middle branch of `coderep`.
  predicate RepByTest(depth: nat, rules: seq<Tree>, p: Tree, fl: Charset) {
    var f := GetFirst(depth, rules, p, AllBytes());
    Headfail(depth, rules, p) || (!f.empty && f.cs !! fl)
  }

  function CodeRep(depth: nat, rules: seq<Tree>, p: Tree, opt: bool, fl: Charset): seq<Slot>
    decreases TRep(p), 0, 0
  {
    if ToCharset(p).Some? then
      [Inst(ISpan, 0, 0)] + Buffer(ToCharset(p).value)
    else
      var f := GetFirst(depth, rules, p, AllBytes());
      if RepByTest(depth, rules, p, fl) then
        var c := Code(depth, rules, p, false, TestOf(f.cs), AllBytes());
        var size := TestSize(f.cs) + |c|;
        CodeTest(f.cs, size + 2) + c + Jump(IJmp, -size)
      else
        var c := Code(depth, rules, p, false, NoTest, AllBytes());
        var start := if opt then Jump(IPartialCommit, 2) else Jump(IChoice, 2 + |c| + 2);
        var test := if f.empty then [] else CodeTest(f.cs, TestSize(f.cs) + 2 + |c| + 2);
        test + start + c + Jump(IPartialCommit, -|c|)
  }

  function CodeNot(depth: nat, rules: seq<Tree>, p: Tree): seq<Slot>
    decreases TNot(p), 0, 0
  {
    var f := GetFirst(depth, rules, p, AllBytes());
    var body :=
      if Headfail(depth, rules, p) then [Inst(IFail, 0, 0)]
      else
        var c := Code(depth, rules, p, false, NoTest, AllBytes());
        Jump(IChoice, 2 + |c| + 1) + c + [Inst(IFailTwice, 0, 0)];
    (if f.empty then [] else CodeTest(f.cs, TestSize(f.cs) + |body|)) + body
  }

  function CodeAnd(depth: nat, rules: seq<Tree>, p: Tree, tt: Test): seq<Slot>
    decreases TAnd(p), 0, 0
  {
    var n := Length(rules, p);
    var c := Code(depth, rules, p, false, tt, AllBytes());
    if 0 <= n <= MAXBEHIND && !Captures(rules, p) then
      c + (if n > 0 then [Inst(IBehind, n, 0)] else [])
    else
      Jump(IChoice, 2 + |c| + 2) + c + Jump(IBackCommit, 3) + [Inst(IFail, 0, 0)]
  }

  function CodeCapture(depth: nat, rules: seq<Tree>, kind: Kind, key: nat, p: Tree, tt: Test, fl: Charset): seq<Slot>
    decreases TCapture(kind, key, p), 0, 0
  {
    var len := Length(rules, p);
    var c := Code(depth, rules, p, false, tt, fl);
    if 0 <= len <= MAXOFF && !Captures(rules, p) then
      c + [Inst(IFullCapture, kind + 16 * len, key)]
    else
      [Inst(IOpenCapture, kind, key)] + c + [Inst(ICloseCapture, C_CLOSE, 0)]
  }

  // `call L1; jmp L2; L1: rule 1; ret; rule 2; ret; ...; L2:`
  function CodeGrammar(depth: nat, rs: seq<Tree>): seq<Slot>
    decreases rs, |rs| + 1, 0
  {
    var body := CodeRules(depth, rs, 0);
    Jump(ICall, 4) + Jump(IJmp, 2 + |body|) + CorrectCalls(body, Positions(depth, rs, 0, 0), 0)
  }

  // The code of the rules from number `k` on, each closed by a return.
  function CodeRules(depth: nat, rs: seq<Tree>, k: nat): seq<Slot>
    decreases rs, |rs| - k, 0
  {
    if k >= |rs| then []
    else Code(depth, rs, rs[k], false, NoTest, AllBytes()) + [Inst(IRet, 0, 0)] + CodeRules(depth, rs, k + 1)
  }

  // Where the rules from number `k` on start, the first of them at `base`.
  function Positions(depth: nat, rs: seq<Tree>, k: nat, base: nat): seq<nat>
    decreases rs, |rs| - k, 0
  {
    if k >= |rs| then []
    else [base] + Positions(depth, rs, k + 1, base + |Code(depth, rs, rs[k], false, NoTest, AllBytes())| + 1)
  }

  // -------------------------------------------------------------------------
  // Code in place
  // -------------------------------------------------------------------------

  // Following jumps from `q` leads to a return.
  ghost predicate LeadsToReturn(code: seq<Slot>, q: int) {
    exists n: nat :: IsOp(code, FinalTarget(code, q, n), IRet)
  }

  // The instruction at `q` calls the rule at `target`, or jumps to it in front
  // of a return.
  ghost predicate CallsRule(code: seq<Slot>, q: int, target: int) {
    && HasOffset(code, q) && code[q + 1].off == target - q
    && (IsOp(code, q, ICall) || (IsOp(code, q, IJmp) && LeadsToReturn(code, q + 2)))
  }

  // Slot `q` of the program is what the generated slot `x` asks for.
  ghost predicate SlotFits(code: seq<Slot>, q: int, x: Slot, positions: seq<int>)
    requires 0 <= q < |code|
  {
    if x.Inst? && x.op == IOpenCall then
      0 <= x.key < |positions| ==> CallsRule(code, q, positions[x.key])
    else if x.Unset? then true
    else code[q] == x
  }

  // The program holds the generated code `part` at address `a`, its open calls
  // resolved to the rules at `positions`.
  ghost predicate Loaded(code: seq<Slot>, a: int, part: seq<Slot>, positions: seq<int>) {
    && 0 <= a && a + |part| <= |code|
    && forall x :: 0 <= x < |part| ==> SlotFits(code, a + x, part[x], positions)
  }

  lemma LoadedSplit(code: seq<Slot>, a: int, p: seq<Slot>, q: seq<Slot>, positions: seq<int>)
    requires Loaded(code, a, p + q, positions)
    ensures Loaded(code, a, p, positions) && Loaded(code, a + |p|, q, positions)
  {
    forall x | 0 <= x < |p| ensures SlotFits(code, a + x, p[x], positions) {
      assert (p + q)[x] == p[x];
    }
    forall x | 0 <= x < |q| ensures SlotFits(code, a + |p| + x, q[x], positions) {
      assert (p + q)[|p| + x] == q[x];
      assert SlotFits(code, a + (|p| + x), (p + q)[|p| + x], positions);
    }
  }

  lemma LoadedInst(code: seq<Slot>, a: int, x: Slot, positions: seq<int>)
    requires Loaded(code, a, [x], positions) && x.Inst? && x.op != IOpenCall
    ensures HasInst(code, a) && code[a] == x
  {
    assert SlotFits(code, a + 0, [x][0], positions);
  }

  lemma LoadedJump(code: seq<Slot>, a: int, op: Opcode, off: int, positions: seq<int>)
    requires Loaded(code, a, Jump(op, off), positions) && op != IOpenCall
    ensures At(code, a, op, off)
  {
    assert SlotFits(code, a + 0, Jump(op, off)[0], positions);
    assert SlotFits(code, a + 1, Jump(op, off)[1], positions);
  }

  lemma LoadedBuffer(code: seq<Slot>, a: int, cs: Charset, positions: seq<int>, c: Byte)
    requires Loaded(code, a, Buffer(cs), positions)
    ensures InBuffer(code, a, c) <==> c in cs
  {
    var k := c / 32;
    assert SlotFits(code, a + k, Buffer(cs)[k], positions);
  }
}
