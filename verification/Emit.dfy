// The code generator as lpcode.c has it: instructions are appended to a code
// array, and the offsets of forward jumps are filled in later.

module Emit {
  import opened PegSyntax
  import opened Analysis
  import opened Vm
  import opened CodeGen
  import opened Calls
  import opened Peephole
  import opened Chains
  import opened Settling
  import Compiler
  import opened Depths
  import opened CompilerCorrect
  import opened Termination

  // The character set in the buffer that starts at `q`.
  function BufferAt(code: seq<Slot>, q: nat): Charset
    requires q + BUFF_SLOTS <= |code|
  {
    set k, c | q <= k < q + BUFF_SLOTS && code[k].Buff? && c in code[k].cs :: c
  }

  // What the instruction at `tt` tests, as far as it can guard other code.
  function TestAt(code: seq<Slot>, tt: int): Test {
    if !HasInst(code, tt) then NoTest
    else if code[tt].op == ITestChar && IsByte(code[tt].aux) then CharTest(code[tt].aux)
    else if code[tt].op == ITestSet && tt + 2 + BUFF_SLOTS <= |code| then SetTest(BufferAt(code, tt + 2))
    else NoTest
  }

  // `codetestset` before its offset is known.
  function OpenTest(cs: Charset): seq<Slot> {
    match CharsetType(cs)
    case EmptySet => [Inst(IJmp, 0, 0), Unset]
    case FullSet => [Inst(ITestAny, 0, 0), Unset]
    case Single(c) => [Inst(ITestChar, c, 0), Unset]
    case OtherSet => [Inst(ITestSet, 0, 0), Unset] + Buffer(cs)
  }

  function OpenJump(op: Opcode): seq<Slot> { [Inst(op, 0, 0), Unset] }

  // `jumptothere` on the code array; nothing is done for NOINST.
  function PatchTo(code: seq<Slot>, instruction: int, target: int): (r: seq<Slot>)
    ensures |r| == |code|
  {
    if 0 <= instruction && instruction + 1 < |code| then code[instruction + 1 := Offset(target - instruction)]
    else code
  }

  // Filling in the offset of an instruction in the middle of the code.
  lemma Patched(a: seq<Slot>, x: Slot, b: seq<Slot>, target: int)
    ensures PatchTo(a + [x, Unset] + b, |a|, target) == a + [x, Offset(target - |a|)] + b
  {
  }

  lemma PatchedTest(a: seq<Slot>, cs: Charset, b: seq<Slot>, target: int)
    ensures |OpenTest(cs)| == TestSize(cs)
    ensures PatchTo(a + OpenTest(cs) + b, |a|, target) == a + CodeTest(cs, target - |a|) + b
  {
    hide OpenTest, CodeTest, PatchTo;
    var o := target - |a|;
    var x, rest := TestParts(cs, o);
    var u, v := [x, Unset], [x, Offset(o)];
    assert a + (u + rest) + b == a + u + (rest + b);
    Patched(a, x, rest + b, target);
    assert a + v + (rest + b) == a + (v + rest) + b;
  }

  lemma TestParts(cs: Charset, o: int) returns (x: Slot, rest: seq<Slot>)
    ensures OpenTest(cs) == [x, Unset] + rest && CodeTest(cs, o) == [x, Offset(o)] + rest
    ensures |OpenTest(cs)| == TestSize(cs)
  {
    x, rest := OpenTest(cs)[0], OpenTest(cs)[2..];
  }

  // A buffer holds the set it was made from.
  lemma BufferHolds(a: seq<Slot>, cs: Charset, b: seq<Slot>)
    ensures BufferAt(a + Buffer(cs) + b, |a|) == cs
  {
    var code := a + Buffer(cs) + b;
    forall c | c in cs ensures c in BufferAt(code, |a|) {
      var k := c / 32;
      assert code[|a| + k] == Buffer(cs)[k];
      assert c in Part(cs, k);
    }
    forall c | c in BufferAt(code, |a|) ensures c in cs {
      var k :| |a| <= k < |a| + BUFF_SLOTS && code[k].Buff? && c in code[k].cs;
      assert code[k] == Buffer(cs)[k - |a|];
    }
  }

  // A test put into the code is recognised later.
  lemma TestRecognised(a: seq<Slot>, cs: Charset, b: seq<Slot>)
    ensures TestAt(a + OpenTest(cs) + b, |a|) == TestOf(cs)
  {
    var code := a + OpenTest(cs) + b;
    assert code[|a|] == OpenTest(cs)[0];
    if CharsetType(cs).OtherSet? {
      var head := a + [Inst(ITestSet, 0, 0), Unset];
      assert code == head + Buffer(cs) + b;
      BufferHolds(head, cs, b);
    }
  }

  lemma TestStays(a: seq<Slot>, b: seq<Slot>, tt: int)
    requires tt < |a| && (IsOp(a, tt, ITestSet) ==> tt + 2 + BUFF_SLOTS <= |a|)
    ensures TestAt(a + b, tt) == TestAt(a, tt)
  {
    if IsOp(a, tt, ITestSet) {
      assert BufferAt(a + b, tt + 2) == BufferAt(a, tt + 2) by {
        assert forall k :: tt + 2 <= k < tt + 2 + BUFF_SLOTS ==> (a + b)[k] == a[k];
      }
    }
  }

  // `tt` is no test or one that is complete up to its offset.
  predicate TestInPlace(code: seq<Slot>, tt: int) {
    (tt < 0 || tt < |code|) && (IsOp(code, tt, ITestSet) ==> tt + 2 + BUFF_SLOTS <= |code|)
  }

  const NOINST := -1

  lemma NewTest(a: seq<Slot>, cs: Charset)
    ensures TestInPlace(a + OpenTest(cs), |a|) && TestAt(a + OpenTest(cs), |a|) == TestOf(cs)
  {
    TestRecognised(a, cs, []);
    assert a + OpenTest(cs) + [] == a + OpenTest(cs);
    assert (a + OpenTest(cs))[|a|] == OpenTest(cs)[0];
  }

  lemma TestStaysAfter(a: seq<Slot>, f: FirstSet, test: int, b: seq<Slot>)
    requires test == if f.empty then NOINST else |a|
    ensures var code := a + (if f.empty then [] else OpenTest(f.cs)) + b;
            && (|code| > 0 || !f.empty ==> TestInPlace(code, test))
            && TestAt(code, test) == if f.empty then NoTest else TestOf(f.cs)
  {
    if !f.empty {
      NewTest(a, f.cs);
      TestStays(a + OpenTest(f.cs), b, test);
    }
  }

  // There is an offset to fill in behind a test.
  lemma RoomAt(a: seq<Slot>, f: FirstSet, code: seq<Slot>)
    requires |code| >= |a + OpenFirst(f)|
    ensures f.empty || |a| + 1 < |code|
  {
  }

  lemma NoTestInPlace(code: seq<Slot>)
    ensures TestInPlace(code, NOINST) && TestAt(code, NOINST) == NoTest
  {
  }

  lemma PatchedLengths(a: seq<Slot>, f: FirstSet, o: int)
    ensures |OpenTest(f.cs)| == |CodeTest(f.cs, o)| == TestSize(f.cs)
  {
  }

  // -------------------------------------------------------------------------
  // What the constructs look like once their jumps are filled in
  // -------------------------------------------------------------------------

  function OpenFirst(f: FirstSet): seq<Slot> { if f.empty then [] else OpenTest(f.cs) }

  function ClosedFirst(f: FirstSet, off: int): seq<Slot> { if f.empty then [] else CodeTest(f.cs, off) }

  lemma PatchedFirst(a: seq<Slot>, f: FirstSet, b: seq<Slot>, target: int)
    ensures |OpenFirst(f)| == |ClosedFirst(f, target - |a|)| == if f.empty then 0 else TestSize(f.cs)
    ensures PatchTo(a + OpenFirst(f) + b, if f.empty then NOINST else |a|, target)
         == a + ClosedFirst(f, target - |a|) + b
  {
    hide PatchTo;
    if f.empty {
      NothingToPatch(a + OpenFirst(f) + b, target);
    } else {
      PatchedTest(a, f.cs, b, target);
      PatchedLengths(a, f, target - |a|);
    }
  }

  lemma NothingToPatch(code: seq<Slot>, target: int)
    ensures PatchTo(code, NOINST, target) == code
  {
  }

  lemma ChoiceByTestPatched(a: seq<Slot>, cs: Charset, c1: seq<Slot>, c2: seq<Slot>, emptyp2: bool)
    ensures var s1 := a + OpenTest(cs) + c1 + (if emptyp2 then [] else OpenJump(IJmp));
            var s2 := PatchTo(s1, |a|, |s1|) + c2;
            var jmp := if emptyp2 then [] else Jump(IJmp, 2 + |c2|);
            PatchTo(s2, if emptyp2 then NOINST else |a + OpenTest(cs) + c1|, |s2|)
              == a + (CodeTest(cs, TestSize(cs) + |c1| + |jmp|) + c1 + jmp + c2)
  {
    hide PatchTo, OpenTest, CodeTest, TestSize;
    var j0 := if emptyp2 then [] else OpenJump(IJmp);
    var jmp := if emptyp2 then [] else Jump(IJmp, 2 + |c2|);
    var s1 := a + OpenTest(cs) + c1 + j0;
    assert s1 == a + OpenTest(cs) + (c1 + j0);
    PatchedTest(a, cs, c1 + j0, |s1|);
    PatchedLengths(a, FirstSet(cs, false), |s1| - |a|);
    var off := TestSize(cs) + |c1| + |jmp|;
    assert |s1| - |a| == off;
    var front := a + CodeTest(cs, off) + c1;
    assert PatchTo(s1, |a|, |s1|) + c2 == front + j0 + c2;
    if emptyp2 {
      NothingToPatch(front + j0 + c2, |front + j0 + c2|);
    } else {
      Patched(front, Inst(IJmp, 0, 0), c2, |front + j0 + c2|);
    }
    assert front + jmp + c2 == a + (CodeTest(cs, off) + c1 + jmp + c2);
  }

  lemma OptionPatched(a: seq<Slot>, c1: seq<Slot>)
    ensures var s1 := a + OpenJump(IPartialCommit);
            PatchTo(s1, |a|, |s1|) + c1 == a + (Jump(IPartialCommit, 2) + c1)
  {
    hide PatchTo;
    var s1 := a + OpenJump(IPartialCommit);
    assert s1 == a + OpenJump(IPartialCommit) + [];
    Patched(a, Inst(IPartialCommit, 0, 0), [], |s1|);
    assert a + Jump(IPartialCommit, 2) + [] + c1 == a + (Jump(IPartialCommit, 2) + c1);
  }

  lemma ChoicePatched(a: seq<Slot>, f: FirstSet, c1: seq<Slot>, c2: seq<Slot>)
    ensures var s0 := a + OpenFirst(f);
            var s1 := s0 + OpenJump(IChoice) + c1 + OpenJump(ICommit);
            var s2 := PatchTo(s1, |s0|, |s1|);
            var s3 := PatchTo(s2, if f.empty then NOINST else |a|, |s2|) + c2;
            PatchTo(s3, |s0 + OpenJump(IChoice) + c1|, |s3|)
              == a + (ClosedFirst(f, TestSize(f.cs) + 2 + |c1| + 2) + Jump(IChoice, 2 + |c1| + 2) + c1 + Jump(ICommit, 2 + |c2|) + c2)
  {
    hide PatchTo, OpenTest, CodeTest, TestSize;
    var s0 := a + OpenFirst(f);
    var s1 := s0 + OpenJump(IChoice) + c1 + OpenJump(ICommit);
    var tail := c1 + OpenJump(ICommit);
    assert s1 == s0 + OpenJump(IChoice) + tail;
    Patched(s0, Inst(IChoice, 0, 0), tail, |s1|);
    var ch := Jump(IChoice, 2 + |c1| + 2);
    var s2 := PatchTo(s1, |s0|, |s1|);
    assert s2 == a + OpenFirst(f) + (ch + tail);
    PatchedFirst(a, f, ch + tail, |s2|);
    var off := TestSize(f.cs) + 2 + |c1| + 2;
    var t1 := ClosedFirst(f, off);
    var front := a + t1 + ch + c1;
    assert PatchTo(s2, if f.empty then NOINST else |a|, |s2|) == a + t1 + (ch + tail);
    var s3 := PatchTo(s2, if f.empty then NOINST else |a|, |s2|) + c2;
    assert s3 == front + OpenJump(ICommit) + c2;
    Patched(front, Inst(ICommit, 0, 0), c2, |s3|);
    assert front + Jump(ICommit, 2 + |c2|) + c2 == a + (t1 + ch + c1 + Jump(ICommit, 2 + |c2|) + c2);
  }

  // The code of a choice in its general form.
  lemma ChoiceDefaultCode(depth: nat, rules: seq<Tree>, p1: Tree, p2: Tree, opt: bool, fl: Charset)
    requires !ChoiceByTest(depth, rules, p1, p2, fl) && !(opt && p2.TTrue?)
    ensures var f1 := GetFirst(depth, rules, p1, AllBytes());
            var c1 := Code(depth, rules, p1, p2.TTrue?, if f1.empty then NoTest else TestOf(f1.cs), AllBytes());
            var c2 := Code(depth, rules, p2, opt, NoTest, fl);
            CodeChoice(depth, rules, p1, p2, opt, fl) ==
              ClosedFirst(f1, TestSize(f1.cs) + 2 + |c1| + 2) + Jump(IChoice, 2 + |c1| + 2) + c1 + Jump(ICommit, 2 + |c2|) + c2
  {
    hide GetFirst, Headfail, Code, CodeTest, TestSize, TestOf, ChoiceByTest;
  }

  lemma LoopByTestPatched(a: seq<Slot>, cs: Charset, c: seq<Slot>)
    ensures var s1 := a + OpenTest(cs) + c + OpenJump(IJmp);
            var s2 := PatchTo(s1, |a|, |s1|);
            var size := TestSize(cs) + |c|;
            PatchTo(s2, |a + OpenTest(cs) + c|, |a|) == a + (CodeTest(cs, size + 2) + c + Jump(IJmp, -size))
  {
    hide PatchTo, OpenTest, CodeTest, TestSize;
    var s1 := a + OpenTest(cs) + c + OpenJump(IJmp);
    var size := TestSize(cs) + |c|;
    assert s1 == a + OpenTest(cs) + (c + OpenJump(IJmp));
    PatchedTest(a, cs, c + OpenJump(IJmp), |s1|);
    PatchedLengths(a, FirstSet(cs, false), size + 2);
    var front := a + CodeTest(cs, size + 2) + c;
    assert PatchTo(s1, |a|, |s1|) == front + OpenJump(IJmp) + [];
    Patched(front, Inst(IJmp, 0, 0), [], |a|);
    assert front + Jump(IJmp, -size) + [] == a + (CodeTest(cs, size + 2) + c + Jump(IJmp, -size));
  }

  lemma LoopInsidePatched(a: seq<Slot>, f: FirstSet, c: seq<Slot>)
    ensures var s0 := a + OpenFirst(f) + OpenJump(IPartialCommit);
            var s1 := PatchTo(s0, |a + OpenFirst(f)|, |s0|);
            var s2 := s1 + c + OpenJump(IPartialCommit);
            var s3 := PatchTo(s2, |s1 + c|, |s1|);
            PatchTo(s3, if f.empty then NOINST else |a|, |s3|)
              == a + (ClosedFirst(f, TestSize(f.cs) + 2 + |c| + 2) + Jump(IPartialCommit, 2) + c + Jump(IPartialCommit, -|c|))
  {
    hide PatchTo, OpenTest, CodeTest, TestSize;
    var t0 := a + OpenFirst(f);
    var s0 := t0 + OpenJump(IPartialCommit);
    assert s0 == t0 + OpenJump(IPartialCommit) + [];
    Patched(t0, Inst(IPartialCommit, 0, 0), [], |s0|);
    var s1 := t0 + Jump(IPartialCommit, 2);
    assert PatchTo(s0, |t0|, |s0|) == s1;
    var s2 := s1 + c + OpenJump(IPartialCommit);
    assert s2 == s1 + c + OpenJump(IPartialCommit) + [];
    Patched(s1 + c, Inst(IPartialCommit, 0, 0), [], |s1|);
    var s3 := s1 + c + Jump(IPartialCommit, -|c|);
    assert PatchTo(s2, |s1 + c|, |s1|) == s3;
    LoopFramed(a, f, Jump(IPartialCommit, 2), c, Jump(IPartialCommit, -|c|), s3);
  }

  lemma LoopFramed(a: seq<Slot>, f: FirstSet, start: seq<Slot>, c: seq<Slot>, end: seq<Slot>, s3: seq<Slot>)
    requires |start| == 2 && |end| == 2 && s3 == a + OpenFirst(f) + start + c + end
    ensures PatchTo(s3, if f.empty then NOINST else |a|, |s3|)
              == a + (ClosedFirst(f, TestSize(f.cs) + 2 + |c| + 2) + start + c + end)
  {
    hide PatchTo, OpenTest, CodeTest, TestSize;
    assert s3 == a + OpenFirst(f) + (start + c + end);
    PatchedFirst(a, f, start + c + end, |s3|);
    var t1 := ClosedFirst(f, TestSize(f.cs) + 2 + |c| + 2);
    assert a + t1 + (start + c + end) == a + (t1 + start + c + end);
  }

  lemma LoopPatched(a: seq<Slot>, f: FirstSet, c: seq<Slot>)
    ensures var t0 := a + OpenFirst(f);
            var s1 := t0 + OpenJump(IChoice);
            var s2 := s1 + c + OpenJump(IPartialCommit);
            var s3 := PatchTo(s2, |s1 + c|, |s1|);
            var s4 := PatchTo(s3, |t0|, |s3|);
            PatchTo(s4, if f.empty then NOINST else |a|, |s4|)
              == a + (ClosedFirst(f, TestSize(f.cs) + 2 + |c| + 2) + Jump(IChoice, 2 + |c| + 2) + c + Jump(IPartialCommit, -|c|))
  {
    hide PatchTo, OpenTest, CodeTest, TestSize;
    var t0 := a + OpenFirst(f);
    var s1 := t0 + OpenJump(IChoice);
    var s2 := s1 + c + OpenJump(IPartialCommit);
    assert s2 == s1 + c + OpenJump(IPartialCommit) + [];
    Patched(s1 + c, Inst(IPartialCommit, 0, 0), [], |s1|);
    var end := Jump(IPartialCommit, -|c|);
    var s3 := t0 + OpenJump(IChoice) + (c + end);
    assert PatchTo(s2, |s1 + c|, |s1|) == s3;
    Patched(t0, Inst(IChoice, 0, 0), c + end, |s3|);
    var start := Jump(IChoice, 2 + |c| + 2);
    var s4 := t0 + start + (c + end);
    assert s4 == a + OpenFirst(f) + start + c + end;
    LoopFramed(a, f, start, c, end, s4);
  }

  lemma NotPatched(a: seq<Slot>, f: FirstSet, c: seq<Slot>)
    ensures var t0 := a + OpenFirst(f);
            var s1 := t0 + OpenJump(IChoice) + c + [Inst(IFailTwice, 0, 0)];
            var s2 := PatchTo(s1, |t0|, |s1|);
            var body := Jump(IChoice, 2 + |c| + 1) + c + [Inst(IFailTwice, 0, 0)];
            PatchTo(s2, if f.empty then NOINST else |a|, |s2|) == a + (ClosedFirst(f, TestSize(f.cs) + |body|) + body)
  {
    hide PatchTo, OpenTest, CodeTest, TestSize;
    var t0 := a + OpenFirst(f);
    var tail := c + [Inst(IFailTwice, 0, 0)];
    var s1 := t0 + OpenJump(IChoice) + c + [Inst(IFailTwice, 0, 0)];
    assert s1 == t0 + OpenJump(IChoice) + tail;
    Patched(t0, Inst(IChoice, 0, 0), tail, |s1|);
    var body := Jump(IChoice, 2 + |c| + 1) + c + [Inst(IFailTwice, 0, 0)];
    assert PatchTo(s1, |t0|, |s1|) == t0 + body;
    BodyFramed(a, f, body);
  }

  lemma BodyFramed(a: seq<Slot>, f: FirstSet, body: seq<Slot>)
    ensures var s := a + OpenFirst(f) + body;
            PatchTo(s, if f.empty then NOINST else |a|, |s|) == a + (ClosedFirst(f, TestSize(f.cs) + |body|) + body)
  {
    hide PatchTo, OpenTest, CodeTest, TestSize;
    PatchedFirst(a, f, body, |a + OpenFirst(f) + body|);
    assert a + ClosedFirst(f, TestSize(f.cs) + |body|) + body == a + (ClosedFirst(f, TestSize(f.cs) + |body|) + body);
  }

  lemma AndPatched(a: seq<Slot>, c: seq<Slot>)
    ensures var s1 := a + OpenJump(IChoice) + c + OpenJump(IBackCommit);
            var s2 := PatchTo(s1, |a|, |s1|) + [Inst(IFail, 0, 0)];
            PatchTo(s2, |a + OpenJump(IChoice) + c|, |s2|)
              == a + (Jump(IChoice, 2 + |c| + 2) + c + Jump(IBackCommit, 3) + [Inst(IFail, 0, 0)])
  {
    hide PatchTo;
    var s1 := a + OpenJump(IChoice) + c + OpenJump(IBackCommit);
    var tail := c + OpenJump(IBackCommit);
    assert s1 == a + OpenJump(IChoice) + tail;
    Patched(a, Inst(IChoice, 0, 0), tail, |s1|);
    var front := a + Jump(IChoice, 2 + |c| + 2) + c;
    var s2 := PatchTo(s1, |a|, |s1|) + [Inst(IFail, 0, 0)];
    assert s2 == front + OpenJump(IBackCommit) + [Inst(IFail, 0, 0)];
    Patched(front, Inst(IBackCommit, 0, 0), [Inst(IFail, 0, 0)], |s2|);
    assert front + Jump(IBackCommit, 3) + [Inst(IFail, 0, 0)]
        == a + (Jump(IChoice, 2 + |c| + 2) + c + Jump(IBackCommit, 3) + [Inst(IFail, 0, 0)]);
  }

  // The two instructions in front of the rules of a grammar.
  lemma FramePatched(a: seq<Slot>, body: seq<Slot>)
    ensures var s0 := a + OpenJump(ICall) + OpenJump(IJmp);
            var s1 := PatchTo(s0, |a|, |s0|);
            && |s1| == |a| + 4 && !s1[|s1| - 1].Inst?
            && PatchTo(s1 + body, |a| + 2, |s1 + body|) == a + Jump(ICall, 4) + Jump(IJmp, 2 + |body|) + body
  {
    hide PatchTo;
    var s0 := a + OpenJump(ICall) + OpenJump(IJmp);
    Patched(a, Inst(ICall, 0, 0), OpenJump(IJmp), |s0|);
    var s1 := a + Jump(ICall, 4) + OpenJump(IJmp);
    Patched(a + Jump(ICall, 4), Inst(IJmp, 0, 0), body, |s1 + body|);
  }

  lemma NextRule(depth: nat, rs: seq<Tree>, k: nat, code: seq<Slot>, base: nat)
    requires k < |rs|
    ensures var c := Code(depth, rs, rs[k], false, NoTest, AllBytes());
            && code + CodeRules(depth, rs, k) == code + c + [Inst(IRet, 0, 0)] + CodeRules(depth, rs, k + 1)
            && (forall rel: seq<nat> :: rel + Positions(depth, rs, k, base) ==
                                        rel + [base] + Positions(depth, rs, k + 1, base + |c| + 1))
  {
    hide Code;
    var c := Code(depth, rs, rs[k], false, NoTest, AllBytes());
    assert code + (c + [Inst(IRet, 0, 0)] + CodeRules(depth, rs, k + 1))
        == code + c + [Inst(IRet, 0, 0)] + CodeRules(depth, rs, k + 1);
  }

  lemma NoMoreRules(depth: nat, rs: seq<Tree>, base: nat)
    ensures CodeRules(depth, rs, |rs|) == [] && Positions(depth, rs, |rs|, base) == []
  {
  }

  // Nothing is to be corrected in the operands of an instruction.
  lemma StepsOver(code: seq<Slot>, positions: seq<nat>, i: nat)
    requires Laid(code) && i < |code|
    requires !(IsOp(code, i, IOpenCall) && i + 1 < |code| && 0 <= code[i].key < |positions|)
    ensures CorrectCalls(code, positions, i) == CorrectCalls(code, positions, i + Width(code[i]))
  {
    hide Laid, FinalTarget;
    if code[i].Inst? {
      OperandsLaid(code, i);
      SkipsOther(code, positions, i + 1, i + Width(code[i]));
    }
  }

  lemma CorrectsOne(code: seq<Slot>, positions: seq<nat>, i: nat, op: Opcode)
    requires IsOp(code, i, IOpenCall) && i + 1 < |code| && 0 <= code[i].key < |positions|
    requires op == if IsOp(code, FinalTarget(code, i + 2, ChainBound(code)), IRet) then IJmp else ICall
    ensures CorrectCalls(code, positions, i)
         == CorrectCalls(code[i := code[i].(op := op)][i + 1 := Offset(positions[code[i].key] - i)], positions, i + 2)
  {
    hide FinalTarget;
  }

  lemma NothingToCorrect(code: seq<Slot>, positions: seq<nat>, i: nat)
    requires i >= |code|
    ensures CorrectCalls(code, positions, i) == code
  {
  }

  lemma OperandsLaid(code: seq<Slot>, i: nat)
    requires Laid(code) && i < |code| && code[i].Inst?
    ensures i + SizeI(code[i].op) <= |code|
    ensures forall x :: i < x < i + SizeI(code[i].op) ==> !code[x].Inst?
  {
    assert InstLaid(code, i);
  }

  // A jump that has become a commit makes no chain endless.
  lemma CopiedEnds(code: seq<Slot>, other: seq<Slot>, i: nat)
    requires AllEnd(code) && IsJump(code, i) && |other| == |code| && other[i].Inst? && !IsJump(other, i) && other[i + 1].Offset?
    requires forall x :: 0 <= x < |code| && x != i && x != i + 1 ==> other[x] == code[x]
    ensures AllEnd(other)
  {
    hide Ends;
    forall x | IsJump(other, x) ensures IsJump(code, x + 0) && code[x + 0 + 1] == other[x + 1] {}
    AllEndBack(other, code, 0);
  }

  class CompileState {
    const depth: nat
    var code: seq<Slot>

    constructor (depth: nat)
      ensures code == [] && this.depth == depth
    {
      this.depth := depth;
      code := [];
    }

    // `addinstruction`
    method AddInstruction(op: Opcode, aux: int, key: int) returns (i: nat)
      modifies this
      ensures i == |old(code)| && code == old(code) + [Inst(op, aux, key)]
    {
      i := |code|;
      code := code + [Inst(op, aux, key)];
    }

    // `addoffsetinst`
    method AddOffsetInst(op: Opcode) returns (i: nat)
      modifies this
      ensures i == |old(code)| && code == old(code) + OpenJump(op)
    {
      i := AddInstruction(op, 0, 0);
      code := code + [Unset];
    }

    // `jumptothere`
    method JumpToThere(instruction: int, target: int)
      requires instruction + 1 < |code|
      modifies this
      ensures code == PatchTo(old(code), instruction, target)
    {
      if instruction >= 0 {
        code := code[instruction + 1 := Offset(target - instruction)];
      }
    }

    // `jumptohere`
    method JumpToHere(instruction: int)
      requires instruction + 1 < |code|
      modifies this
      ensures code == PatchTo(old(code), instruction, |old(code)|)
    {
      JumpToThere(instruction, |code|);
    }

    // `addcharset`: space for the buffer first, then its contents.
    method AddCharset(cs: Charset)
      modifies this
      ensures code == old(code) + Buffer(cs)
    {
      var p := |code|;
      code := code + seq(BUFF_SLOTS, _ => Unset);
      var k := 0;
      while k < BUFF_SLOTS
        invariant 0 <= k <= BUFF_SLOTS && |code| == p + BUFF_SLOTS && p == |old(code)|
        invariant code[..p] == old(code)
        invariant forall j :: 0 <= j < k ==> code[p + j] == Buff(Part(cs, j))
      {
        code := code[p + k := Buff(Part(cs, k))];
        k := k + 1;
      }
      assert code == code[..p] + Buffer(cs);
    }

    // `codechar`
    method EmitChar(c: Byte, tt: int)
      requires TestInPlace(code, tt)
      modifies this
      ensures code == old(code) + CodeChar(c, TestAt(old(code), tt))
    {
      if tt >= 0 && IsOp(code, tt, ITestChar) && code[tt].aux == c {
        var _ := AddInstruction(IAny, 0, 0);
      } else {
        var _ := AddInstruction(IChar, c, 0);
      }
    }

    // `codecharset`
    method EmitCharset(cs: Charset, tt: int)
      requires TestInPlace(code, tt)
      modifies this
      ensures code == old(code) + CodeCharset(cs, TestAt(old(code), tt))
    {
      match CharsetType(cs) {
        case Single(c) => EmitChar(c, tt);
        case OtherSet =>
          if tt >= 0 && IsOp(code, tt, ITestSet) && cs == BufferAt(code, tt + 2) {
            var _ := AddInstruction(IAny, 0, 0);
          } else {
            var _ := AddInstruction(ISet, 0, 0);
            AddCharset(cs);
          }
        case EmptySet => var _ := AddInstruction(IFail, 0, 0);
        case FullSet => var _ := AddInstruction(IAny, 0, 0);
      }
    }

    // `codetestset`
    method EmitTestSet(cs: Charset, e: bool) returns (i: int)
      modifies this
      ensures i == if e then NOINST else |old(code)|
      ensures code == old(code) + (if e then [] else OpenTest(cs))
    {
      if e { return NOINST; }
      match CharsetType(cs) {
        case EmptySet => i := AddOffsetInst(IJmp);
        case FullSet => i := AddOffsetInst(ITestAny);
        case Single(c) =>
          i := AddOffsetInst(ITestChar);
          code := code[i := code[i].(aux := c)];
        case OtherSet =>
          i := AddOffsetInst(ITestSet);
          AddCharset(cs);
      }
    }

    // -----------------------------------------------------------------------
    // Trees
    // -----------------------------------------------------------------------

    // `codegen`: appends the code of the tree.
    method GenCode(rules: seq<Tree>, t: Tree, opt: bool, tt: int, fl: Charset)
      requires TestInPlace(code, tt)
      requires Settles(depth, t)
      modifies this
      ensures code == old(code) + Code(depth, rules, t, opt, TestAt(old(code), tt), fl)
      decreases t, 3, 0
    {
      hide GetFirst, FixedLen, TestAt, Code, CodeChoice, CodeRep, CodeNot, CodeAnd, CodeCapture, CodeGrammar, CodeChar,
           CodeCharset, AllEnd, Contained;
      CodeShape(Scope(depth, rules, []), t, opt, TestAt(code, tt), fl);
      match t {
        case TChar(c) => EmitChar(c, tt);
        case TAny => var _ := AddInstruction(IAny, 0, 0);
        case TSet(cs) => EmitCharset(cs, tt);
        case TTrue =>
        case TFalse => var _ := AddInstruction(IFail, 0, 0);
        case TChoice(_, _) => GenChoice(rules, t, opt, fl);
        case TRep(_) => GenRep(rules, t, opt, fl);
        case TBehind(_, _) => GenBehind(rules, t);
        case TNot(_) => GenNot(rules, t);
        case TAnd(_) => GenAnd(rules, t, tt);
        case TCapture(_, _, _) => GenCapture(rules, t, tt, fl);
        case TGrammar(_) => GenGrammar(t);
        case TCall(k) => GenCall(k);
        case TSeq(p1, p2) =>
          var tt2 := GenSeq1(rules, t, tt, fl);
          GenCode(rules, p2, opt, tt2, fl);
      }
    }

    // `codecall`
    method GenCall(k: nat)
      modifies this
      ensures code == old(code) + [Inst(IOpenCall, 0, k), Unset]
    {
      var c := AddOffsetInst(IOpenCall);
      code := code[c := code[c].(key := k)];
    }

    // `codeseq1`: codes the first child and says what guards the second.
    method GenSeq1(rules: seq<Tree>, t: Tree, tt: int, fl: Charset) returns (tt2: int)
      requires TestInPlace(code, tt) && t.TSeq?
      requires Settles(depth, t)
      modifies this
      ensures code == old(code) +
                Code(depth, rules, t.p1, false, TestAt(old(code), tt),
                     if NeedFollow(t.p1) then GetFirst(depth, rules, t.p2, fl).cs else AllBytes())
      ensures TestInPlace(code, tt2)
      ensures TestAt(code, tt2) == if Length(rules, t.p1) != 0 then NoTest else TestAt(old(code), tt)
      decreases t, 2, 0
    {
      hide GetFirst, CheckAux, FixedLen, Code, BufferAt;
      ghost var before := code;
      var fl1 := AllBytes();
      if NeedFollow(t.p1) { fl1 := GetFirst(depth, rules, t.p2, fl).cs; }
      GenCode(rules, t.p1, false, tt, fl1);
      TestStays(before, Code(depth, rules, t.p1, false, TestAt(before, tt), fl1), tt);
      tt2 := if Length(rules, t.p1) != 0 then NOINST else tt;
    }

    // `codebehind`
    method GenBehind(rules: seq<Tree>, t: Tree)
      requires t.TBehind?
      requires Settles(depth, t)
      modifies this
      ensures code == old(code) + ((if t.n > 0 then [Inst(IBehind, t.n, 0)] else []) +
                                   Code(depth, rules, t.p, false, NoTest, AllBytes()))
      decreases t, 2, 0
    {
      hide Code;
      if t.n > 0 { var _ := AddInstruction(IBehind, t.n, 0); }
      GenCode(rules, t.p, false, NOINST, AllBytes());
    }

    // `codechoice`
    method GenChoice(rules: seq<Tree>, t: Tree, opt: bool, fl: Charset)
      requires t.TChoice?
      requires Settles(depth, t)
      modifies this
      ensures code == old(code) + CodeChoice(depth, rules, t.p1, t.p2, opt, fl)
      decreases t, 2, 0
    {
      hide GetFirst, Headfail, Code, OpenTest, CodeTest, TestSize, TestOf, PatchTo, TestAt, TestInPlace;
      ghost var a := code;
      var TChoice(p1, p2) := t;
      var emptyp2 := p2.TTrue?;
      var f1 := GetFirst(depth, rules, p1, AllBytes());
      if ChoiceByTest(depth, rules, p1, p2, fl) {
        GenChoiceByTest(rules, t, opt, fl);
      } else if opt && emptyp2 {
        var i := AddOffsetInst(IPartialCommit);
        JumpToHere(i);
        NoTestInPlace(code);
        GenCode(rules, p1, true, NOINST, AllBytes());
        OptionPatched(a, Code(depth, rules, p1, true, NoTest, AllBytes()));
      } else {
        GenChoiceDefault(rules, t, opt, fl);
      }
    }

    method GenChoiceByTest(rules: seq<Tree>, t: Tree, opt: bool, fl: Charset)
      requires t.TChoice? && ChoiceByTest(depth, rules, t.p1, t.p2, fl)
      requires Settles(depth, t)
      modifies this
      ensures code == old(code) + CodeChoice(depth, rules, t.p1, t.p2, opt, fl)
      decreases t, 1, 0
    {
      hide GetFirst, Headfail, Code, OpenTest, CodeTest, TestSize, TestOf, ChoiceByTest, PatchTo, TestAt, TestInPlace;
      ghost var a := code;
      var TChoice(p1, p2) := t;
      var emptyp2 := p2.TTrue?;
      var f1 := GetFirst(depth, rules, p1, AllBytes());
      var test := EmitTestSet(f1.cs, false);
      NewTest(a, f1.cs);
      GenCode(rules, p1, false, test, fl);
      ghost var s0 := code;
      var jmp := NOINST;
      if !emptyp2 { jmp := AddOffsetInst(IJmp); }
      assert code == s0 + if emptyp2 then [] else OpenJump(IJmp);
      RoomAt(a, FirstSet(f1.cs, false), code);
      JumpToHere(test);
      NoTestInPlace(code);
      GenCode(rules, p2, opt, NOINST, fl);
      JumpToHere(jmp);
      ChoiceByTestPatched(a, f1.cs, Code(depth, rules, p1, false, TestOf(f1.cs), fl),
                          Code(depth, rules, p2, opt, NoTest, fl), emptyp2);
    }

    method GenChoiceDefault(rules: seq<Tree>, t: Tree, opt: bool, fl: Charset)
      requires t.TChoice? && !ChoiceByTest(depth, rules, t.p1, t.p2, fl) && !(opt && t.p2.TTrue?)
      requires Settles(depth, t)
      modifies this
      ensures code == old(code) + CodeChoice(depth, rules, t.p1, t.p2, opt, fl)
      decreases t, 1, 0
    {
      hide GetFirst, Headfail, Code, OpenTest, CodeTest, TestSize, TestOf, ChoiceByTest, PatchTo, TestAt, TestInPlace,
           CodeChoice, AllEnd, Contained;
      ghost var a := code;
      var TChoice(p1, p2) := t;
      var f1 := GetFirst(depth, rules, p1, AllBytes());
      ChoiceDefaultCode(depth, rules, p1, p2, opt, fl);
      var test := EmitTestSet(f1.cs, f1.empty);
      var pchoice := AddOffsetInst(IChoice);
      TestStaysAfter(a, f1, test, OpenJump(IChoice));
      GenCode(rules, p1, p2.TTrue?, test, AllBytes());
      var pcommit := AddOffsetInst(ICommit);
      JumpToHere(pchoice);
      RoomAt(a, f1, code);
      JumpToHere(test);
      NoTestInPlace(code);
      GenCode(rules, p2, opt, NOINST, fl);
      JumpToHere(pcommit);
      ChoicePatched(a, f1, Code(depth, rules, p1, p2.TTrue?, if f1.empty then NoTest else TestOf(f1.cs), AllBytes()),
                    Code(depth, rules, p2, opt, NoTest, fl));
    }

    // `coderep`
    method GenRep(rules: seq<Tree>, t: Tree, opt: bool, fl: Charset)
      requires t.TRep?
      requires Settles(depth, t)
      modifies this
      ensures code == old(code) + CodeRep(depth, rules, t.p, opt, fl)
      decreases t, 2, 0
    {
      hide GetFirst, Headfail, Code, OpenTest, CodeTest, TestSize, TestOf, ToCharset, Buffer, PatchTo, TestAt, TestInPlace;
      ghost var a := code;
      var p := t.p;
      if ToCharset(p).Some? {
        var _ := AddInstruction(ISpan, 0, 0);
        AddCharset(ToCharset(p).value);
        assert code == a + ([Inst(ISpan, 0, 0)] + Buffer(ToCharset(p).value));
      } else {
        var f := GetFirst(depth, rules, p, AllBytes());
        if RepByTest(depth, rules, p, fl) {
          var test := EmitTestSet(f.cs, false);
          NewTest(a, f.cs);
          GenCode(rules, p, false, test, AllBytes());
          var jmp := AddOffsetInst(IJmp);
          RoomAt(a, FirstSet(f.cs, false), code);
          JumpToHere(test);
          JumpToThere(jmp, test);
          LoopByTestPatched(a, f.cs, Code(depth, rules, p, false, TestOf(f.cs), AllBytes()));
        } else {
          GenRepDefault(rules, t, opt, fl);
        }
      }
    }

    method GenRepDefault(rules: seq<Tree>, t: Tree, opt: bool, fl: Charset)
      requires t.TRep? && ToCharset(t.p).None? && !RepByTest(depth, rules, t.p, fl)
      requires Settles(depth, t)
      modifies this
      ensures code == old(code) + CodeRep(depth, rules, t.p, opt, fl)
      decreases t, 1, 0
    {
      hide GetFirst, Headfail, Code, OpenTest, CodeTest, TestSize, TestOf, ToCharset, RepByTest, PatchTo, TestAt, TestInPlace;
      ghost var a := code;
      var p := t.p;
      var f := GetFirst(depth, rules, p, AllBytes());
      var test := EmitTestSet(f.cs, f.empty);
      var pchoice := NOINST;
      if opt {
        var i := AddOffsetInst(IPartialCommit);
        JumpToHere(i);
      } else {
        pchoice := AddOffsetInst(IChoice);
      }
      var l2 := |code|;
      NoTestInPlace(code);
      GenCode(rules, p, false, NOINST, AllBytes());
      var commit := AddOffsetInst(IPartialCommit);
      JumpToThere(commit, l2);
      NothingToPatch(code, |code|);
      JumpToHere(pchoice);
      RoomAt(a, f, code);
      JumpToHere(test);
      ghost var c := Code(depth, rules, p, false, NoTest, AllBytes());
      if opt { LoopInsidePatched(a, f, c); } else { LoopPatched(a, f, c); }
    }

    // `codenot`
    method GenNot(rules: seq<Tree>, t: Tree)
      requires t.TNot?
      requires Settles(depth, t)
      modifies this
      ensures code == old(code) + CodeNot(depth, rules, t.p)
      decreases t, 2, 0
    {
      hide GetFirst, Headfail, Code, OpenTest, CodeTest, TestSize, TestOf, PatchTo, TestAt, TestInPlace;
      ghost var a := code;
      var p := t.p;
      var f := GetFirst(depth, rules, p, AllBytes());
      var test := EmitTestSet(f.cs, f.empty);
      if Headfail(depth, rules, p) {
        var _ := AddInstruction(IFail, 0, 0);
        RoomAt(a, f, code);
        JumpToHere(test);
        BodyFramed(a, f, [Inst(IFail, 0, 0)]);
      } else {
        var pchoice := AddOffsetInst(IChoice);
        NoTestInPlace(code);
        GenCode(rules, p, false, NOINST, AllBytes());
        var _ := AddInstruction(IFailTwice, 0, 0);
        JumpToHere(pchoice);
        RoomAt(a, f, code);
        JumpToHere(test);
        NotPatched(a, f, Code(depth, rules, p, false, NoTest, AllBytes()));
      }
    }

    // `codeand`
    method GenAnd(rules: seq<Tree>, t: Tree, tt: int)
      requires TestInPlace(code, tt) && t.TAnd?
      requires Settles(depth, t)
      modifies this
      ensures code == old(code) + CodeAnd(depth, rules, t.p, TestAt(old(code), tt))
      decreases t, 2, 0
    {
      hide FixedLen, HasCaptures, Code, TestAt, PatchTo;
      ghost var a := code;
      var p := t.p;
      var n := Length(rules, p);
      ghost var c := Code(depth, rules, p, false, TestAt(a, tt), AllBytes());
      if 0 <= n <= MAXBEHIND && !Captures(rules, p) {
        GenCode(rules, p, false, tt, AllBytes());
        if n > 0 { var _ := AddInstruction(IBehind, n, 0); }
        assert code == a + (c + (if n > 0 then [Inst(IBehind, n, 0)] else []));
      } else {
        var pchoice := AddOffsetInst(IChoice);
        TestStays(a, OpenJump(IChoice), tt);
        GenCode(rules, p, false, tt, AllBytes());
        var pcommit := AddOffsetInst(IBackCommit);
        JumpToHere(pchoice);
        var _ := AddInstruction(IFail, 0, 0);
        JumpToHere(pcommit);
        AndPatched(a, c);
      }
    }

    // `codecapture`
    method GenCapture(rules: seq<Tree>, t: Tree, tt: int, fl: Charset)
      requires TestInPlace(code, tt) && t.TCapture?
      requires Settles(depth, t)
      modifies this
      ensures code == old(code) + CodeCapture(depth, rules, t.kind, t.key, t.p, TestAt(old(code), tt), fl)
      decreases t, 2, 0
    {
      hide FixedLen, HasCaptures, Code, TestAt;
      ghost var a := code;
      var TCapture(kind, key, p) := t;
      var len := Length(rules, p);
      ghost var c := Code(depth, rules, p, false, TestAt(a, tt), fl);
      if 0 <= len <= MAXOFF && !Captures(rules, p) {
        GenCode(rules, p, false, tt, fl);
        var _ := AddInstruction(IFullCapture, kind + 16 * len, key);
        assert code == a + (c + [Inst(IFullCapture, kind + 16 * len, key)]);
      } else {
        var _ := AddInstruction(IOpenCapture, kind, key);
        TestStays(a, [Inst(IOpenCapture, kind, key)], tt);
        GenCode(rules, p, false, tt, fl);
        var _ := AddInstruction(ICloseCapture, C_CLOSE, 0);
        assert code == a + ([Inst(IOpenCapture, kind, key)] + c + [Inst(ICloseCapture, C_CLOSE, 0)]);
      }
    }

    // -----------------------------------------------------------------------
    // Grammars
    // -----------------------------------------------------------------------

    // `codegrammar`
    method GenGrammar(t: Tree)
      requires t.TGrammar? && Settles(depth, t)
      modifies this
      ensures code == old(code) + CodeGrammar(depth, t.rules)
      decreases t, 2, 0
    {
      hide Code, PatchTo, AllEnd, Contained, Positions, CorrectCalls, CodeRules, Laid;
      ghost var a := code;
      var firstcall := AddOffsetInst(ICall);
      var jumptoend := AddOffsetInst(IJmp);
      var start := |code|;
      JumpToHere(firstcall);
      ghost var body := CodeRules(depth, t.rules, 0);
      FramePatched(a, body);
      var positions, rel := GenRules(t);
      JumpToHere(jumptoend);
      CodeRulesLaid(depth, t.rules, 0);
      ghost var front := a + Jump(ICall, 4) + Jump(IJmp, 2 + |body|);
      assert code[start..] == body && code[..start] == front;
      FixCalls(positions, start, rel);
    }

    // The loop of `codegrammar` over the rules. `rel` are the positions from
    // where the rules start.
    method GenRules(t: Tree) returns (positions: seq<nat>, ghost rel: seq<nat>)
      requires t.TGrammar? && Settles(depth, t)
      modifies this
      ensures code == old(code) + CodeRules(depth, t.rules, 0)
      ensures rel == Positions(depth, t.rules, 0, 0) && |positions| == |rel|
      ensures forall j :: 0 <= j < |rel| ==> positions[j] == |old(code)| + rel[j]
      decreases t, 1, 0
    {
      hide Code, AllEnd, Contained, TestAt, TestInPlace, CodeRules, Positions;
      ghost var a := code;
      positions, rel := [], [];
      var k := 0;
      while k < |t.rules|
        invariant 0 <= k <= |t.rules| && |code| >= |a|
        invariant code + CodeRules(depth, t.rules, k) == a + CodeRules(depth, t.rules, 0)
        invariant rel + Positions(depth, t.rules, k, |code| - |a|) == Positions(depth, t.rules, 0, 0)
        invariant |positions| == |rel| && forall j :: 0 <= j < |rel| ==> positions[j] == |a| + rel[j]
      {
        NextRule(depth, t.rules, k, code, |code| - |a|);
        positions, rel := positions + [|code|], rel + [|code| - |a|];
        NoTestInPlace(code);
        GenCode(t.rules, t.rules[k], false, NOINST, AllBytes());
        var _ := AddInstruction(IRet, 0, 0);
        k := k + 1;
      }
      NoMoreRules(depth, t.rules, |code| - |a|);
    }

    // `finaltarget`
    method FindTarget(start: int) returns (i: int)
      requires Ends(code, start)
      ensures i == FinalTarget(code, start, ChainBound(code)) && !IsJump(code, i)
    {
      BoundSuffices(code, start);
      ghost var left: nat := ChainBound(code);
      i := start;
      while IsJump(code, i)
        invariant FinalTarget(code, i, left) == FinalTarget(code, start, ChainBound(code))
        decreases left
      {
        i := i + code[i + 1].off;
        left := left - 1;
      }
      ChainStops(code, i, left);
    }

    // `correctcalls`
    method FixCalls(positions: seq<nat>, from: nat, ghost rel: seq<nat>)
      requires 0 < from <= |code| && !code[from - 1].Inst?
      requires |rel| == |positions| && forall j :: 0 <= j < |rel| ==> positions[j] == from + rel[j]
      requires Laid(code[from..]) && Contained(CorrectCalls(code[from..], rel, 0))
      modifies this
      ensures code == old(code[..from]) + CorrectCalls(old(code[from..]), rel, 0)
    {
      hide Laid, Contained, Ends, FinalTarget, CorrectCalls;
      ghost var front, goal := code[..from], CorrectCalls(code[from..], rel, 0);
      var i := from;
      while i < |code|
        invariant from <= i && |code| == |old(code)| && code[..from] == front
        invariant Laid(code[from..]) && CorrectCalls(code[from..], rel, i - from) == goal
        decreases |code| - i
      {
        ghost var body := code[from..];
        assert code == front + body;
        if IsOp(code, i, IOpenCall) && i + 1 < |code| && 0 <= code[i].key < |positions| {
          FixCall(positions, from, i, front, body, rel);
          i := i + 2;
        } else {
          StepsOver(body, rel, i - from);
          i := i + Width(code[i]);
        }
      }
      NothingToCorrect(code[from..], rel, i - from);
      assert code == front + code[from..];
    }

    // One open call becomes a call, or a jump in front of a return.
    method FixCall(positions: seq<nat>, from: nat, i: nat, ghost front: seq<Slot>, ghost body: seq<Slot>, ghost rel: seq<nat>)
      requires 0 < from == |front| && !front[from - 1].Inst? && code == front + body && from <= i && i + 1 < |code|
      requires |rel| == |positions| && forall j :: 0 <= j < |rel| ==> positions[j] == from + rel[j]
      requires Laid(body) && Contained(CorrectCalls(body, rel, i - from))
      requires IsOp(code, i, IOpenCall) && 0 <= code[i].key < |positions|
      modifies this
      ensures |code| == |old(code)| && code[..from] == front && Laid(code[from..])
      ensures CorrectCalls(code[from..], rel, i + 2 - from) == CorrectCalls(body, rel, i - from)
    {
      hide Laid, Contained, Ends, FinalTarget, CorrectCalls;
      ghost var k := i - from;
      assert code[i] == body[k] && code[i + 1] == body[k + 1];
      BeforeCorrection(body, rel, k);
      ReturnBehind(front, body, k + 2);
      var to := FindTarget(i + 2);
      var op := if IsOp(code, to, IRet) then IJmp else ICall;
      var target := positions[code[i].key];
      FixedLaid(body, k, op, rel[code[i].key] - k);
      CorrectsOne(body, rel, k, op);
      code := code[i := code[i].(op := op)];
      code := code[i + 1 := Offset(target - i)];
      assert code[from..] == body[k := body[k].(op := op)][k + 1 := Offset(rel[body[k].key] - k)];
    }

    // -----------------------------------------------------------------------
    // The whole compiler
    // -----------------------------------------------------------------------

    // `peephole`
    method OptimizeAll()
      requires AllEnd(code)
      modifies this
      ensures code == PeepholeFrom(old(code), 0)
    {
      hide OptimizeAt, AllEnd;
      var i: nat := 0;
      while i < |code|
        invariant AllEnd(code) && PeepholeFrom(code, i) == PeepholeFrom(old(code), 0)
        invariant |code| == |old(code)|
        decreases |code| - i
      {
        OptimizedEnds(code, i);
        ghost var before := code;
        OptimizeOne(i);
        assert code == OptimizeAt(before, i);
        i := i + Width(code[i]);
      }
    }

    // The switch in the loop of `peephole`; `redo` takes the first branch.
    method OptimizeOne(i: nat)
      requires i < |code| && AllEnd(code)
      modifies this
      ensures code == OptimizeAt(old(code), i)
    {
      hide Ends, FinalTarget;
      if !HasInst(code, i) || !HasOffset(code, i) { return; }
      if KeepsOp(code[i].op) {
        assert Ends(code, i + code[i + 1].off);
        var to := FindTarget(i + code[i + 1].off);
        code := code[i + 1 := Offset(to - i)];
      } else if code[i].op == IJmp {
        assert Ends(code, i);
        var ft := FindTarget(i);
        if HasInst(code, ft) && Leaves(code[ft].op) {
          code := code[i := code[ft]];
          code := code[i + 1 := Inst(IAny, 0, 0)];
        } else if HasInst(code, ft) && Commits(code[ft].op) && HasOffset(code, ft) {
          OptimizeCommit(i, ft);
        } else {
          code := code[i + 1 := Offset(ft - i)];
        }
      }
    }

    method OptimizeCommit(i: nat, ft: int)
      requires IsJump(code, i) && AllEnd(code) && ft == FinalTarget(code, i, ChainBound(code))
      requires HasInst(code, ft) && Commits(code[ft].op) && HasOffset(code, ft)
      modifies this
      ensures code == OptimizeJump(old(code), i)
    {
      hide Ends, FinalTarget;
      ghost var before := code;
      assert Ends(code, ft + code[ft + 1].off);
      var fft := FindTarget(ft + code[ft + 1].off);
      code := code[i := code[ft]];
      code := code[i + 1 := Offset(fft - i)];
      CopiedEnds(before, code, i);
      var to := FindTarget(i + code[i + 1].off);
      code := code[i + 1 := Offset(to - i)];
    }
  }

  // `compile`: the imperative compiler makes the code that `Compiler.Compile`
  // stands for.
  method CompilePattern(t: Tree) returns (code: seq<Slot>)
    requires WellFormed([], t) && AcceptedPattern(true, Below(t), t)
    ensures code == Compiler.Compile(t)
  {
    hide Code, AllEnd, Settles, Accepted, WellFormed, PeepholeFrom, TestAt, TestInPlace;
    var c := new CompileState(Depth(t));
    AcceptedSettles(Depth(t), Below(t), [], t);
    NoTestInPlace(c.code);
    c.GenCode([], t, false, NOINST, AllBytes());
    var _ := c.AddInstruction(IEnd, 0, 0);
    assert c.code == Compiler.CodeOf(t);
    PatternChainsEnd(Depth(t), Below(t), t);
    c.OptimizeAll();
    code := c.code;
  }
}
