// The last pass of the compiler (`peephole`), and why it changes nothing: the
// proof runs the old and the new code side by side, one of them possibly some
// jumps ahead.

module Peephole {
  import opened PegSyntax
  import opened Vm
  import opened CodeGen

  // `jumptothere`
  function JumpToThere(code: seq<Slot>, i: nat, target: int): seq<Slot>
    requires i + 1 < |code|
  {
    code[i + 1 := Offset(target - i)]
  }

  // `finallabel`
  function FinalLabel(code: seq<Slot>, i: int): int
    requires HasOffset(code, i)
  {
    FinalTarget(code, i + code[i + 1].off, ChainBound(code))
  }

  // Labelled instructions whose label is moved to its final target.
  predicate KeepsOp(op: Opcode) {
    op in {IChoice, ICall, ICommit, IPartialCommit, IBackCommit, ITestChar, ITestSet, ITestAny}
  }

  // Instructions that never go on to the next one and have no label.
  predicate Leaves(op: Opcode) { op in {IRet, IFail, IFailTwice, IEnd} }

  // Instructions that always go to their label.
  predicate Commits(op: Opcode) { op in {ICommit, IPartialCommit, IBackCommit} }

  // The body of the loop in `peephole`.
  function OptimizeAt(code: seq<Slot>, i: nat): (r: seq<Slot>)
    ensures |r| == |code|
  {
    if !HasInst(code, i) || !HasOffset(code, i) then code
    else if KeepsOp(code[i].op) then JumpToThere(code, i, FinalLabel(code, i))
    else if code[i].op == IJmp then OptimizeJump(code, i)
    else code
  }

  // A jump becomes the instruction it leads to where that is possible.
  function OptimizeJump(code: seq<Slot>, i: nat): (r: seq<Slot>)
    requires IsJump(code, i)
    ensures |r| == |code|
  {
    var ft := FinalTarget(code, i, ChainBound(code));
    if HasInst(code, ft) && Leaves(code[ft].op) then
      code[i := code[ft]][i + 1 := Inst(IAny, 0, 0)]
    else if HasInst(code, ft) && Commits(code[ft].op) && HasOffset(code, ft) then
      var copied := code[i := code[ft]][i + 1 := Offset(FinalLabel(code, ft) - i)];
      JumpToThere(copied, i, FinalLabel(copied, i))
    else
      JumpToThere(code, i, ft)
  }

  function Width(x: Slot): (n: nat)
    ensures n > 0
  {
    if x.Inst? then SizeI(x.op) else 1
  }

  // `peephole` from address `i` on.
  function PeepholeFrom(code: seq<Slot>, i: nat): (r: seq<Slot>)
    ensures |r| == |code|
    decreases |code| - i
  {
    if i >= |code| then code
    else
      var next := OptimizeAt(code, i);
      PeepholeFrom(next, i + Width(next[i]))
  }

  // -------------------------------------------------------------------------
  // Chains of jumps
  // -------------------------------------------------------------------------

  lemma {:induction false} ChainAdds(code: seq<Slot>, q: int, x: nat, y: nat)
    ensures FinalTarget(code, FinalTarget(code, q, x), y) == FinalTarget(code, q, x + y)
    decreases x
  {
    if x > 0 && IsJump(code, q) {
      ChainAdds(code, q + code[q + 1].off, x - 1, y);
    } else if x > 0 {
      ChainStops(code, q, y);
      ChainStops(code, q, x + y);
    }
  }

  lemma ChainStops(code: seq<Slot>, q: int, n: nat)
    requires !IsJump(code, q)
    ensures FinalTarget(code, q, n) == q
  {
  }

  // Two addresses meet when their chains of jumps do.
  ghost predicate Meets(code: seq<Slot>, p: int, q: int) {
    exists x: nat, y: nat :: MeetsBy(code, p, q, x, y)
  }

  ghost predicate MeetsBy(code: seq<Slot>, p: int, q: int, x: nat, y: nat) {
    FinalTarget(code, p, x) == FinalTarget(code, q, y)
  }

  lemma MeetsSelf(code: seq<Slot>, p: int)
    ensures Meets(code, p, p)
  {
    assert MeetsBy(code, p, p, 0, 0);
  }

  lemma MeetsChain(code: seq<Slot>, p: int, n: nat)
    ensures Meets(code, p, FinalTarget(code, p, n))
  {
    assert MeetsBy(code, p, FinalTarget(code, p, n), n, 0);
  }

  // Taking a jump keeps the meeting.
  lemma MeetsAfterJump(code: seq<Slot>, p: int, q: int)
    requires Meets(code, p, q) && IsJump(code, p)
    ensures Meets(code, p + code[p + 1].off, q)
  {
    var x: nat, y: nat :| MeetsBy(code, p, q, x, y);
    var target := p + code[p + 1].off;
    if x > 0 {
      assert MeetsBy(code, target, q, x - 1, y);
    } else {
      assert FinalTarget(code, p, 1) == FinalTarget(code, target, 0);
      ChainAdds(code, q, y, 1);
      assert MeetsBy(code, target, q, 0, y + 1);
    }
  }

  // The chain of an address that meets a place which is no jump leads there.
  lemma MeetsEnd(code: seq<Slot>, p: int, q: int) returns (y: nat)
    requires Meets(code, p, q) && !IsJump(code, p)
    ensures FinalTarget(code, q, y) == p
  {
    var x: nat, z: nat :| MeetsBy(code, p, q, x, z);
    ChainStops(code, p, x);
    y := z;
  }

  // A chain has only one end.
  lemma EndIsUnique(code: seq<Slot>, q: int, x: nat, y: nat)
    requires !IsJump(code, FinalTarget(code, q, x)) && !IsJump(code, FinalTarget(code, q, y))
    ensures FinalTarget(code, q, x) == FinalTarget(code, q, y)
  {
    if x <= y {
      ChainAdds(code, q, x, y - x);
      ChainStops(code, FinalTarget(code, q, x), y - x);
    } else {
      ChainAdds(code, q, y, x - y);
      ChainStops(code, FinalTarget(code, q, y), x - y);
    }
  }

  // -------------------------------------------------------------------------
  // States that differ only in where jumps have been taken
  // -------------------------------------------------------------------------

  ghost predicate StacksMeet(code: seq<Slot>, a: Stack, b: Stack) {
    match (a, b)
    case (Bottom, Bottom) => true
    case (Push(Back(p, s, l), a1), Push(Back(q, t, k), b1)) =>
      s == t && l == k && Meets(code, p, q) && StacksMeet(code, a1, b1)
    case (Push(Ret(p), a1), Push(Ret(q), b1)) => Meets(code, p, q) && StacksMeet(code, a1, b1)
    case _ => false
  }

  ghost predicate StatesMeet(code: seq<Slot>, a: State, b: State) {
    match (a, b)
    case (Running(p, s, x, c), Running(q, t, y, d)) => s == t && c == d && Meets(code, p, q) && StacksMeet(code, x, y)
    case (Failing(x, c), Failing(y, d)) => c == d && StacksMeet(code, x, y)
    case _ => a == b
  }

  lemma {:induction false} StackMeetsSelf(code: seq<Slot>, a: Stack)
    ensures StacksMeet(code, a, a)
  {
    match a
    case Bottom =>
    case Push(e, rest) =>
      MeetsSelf(code, e.p);
      StackMeetsSelf(code, rest);
  }

  // `other` differs from `code` in the labelled instruction at `i` at most.
  ghost predicate ChangedAt(code: seq<Slot>, other: seq<Slot>, i: nat) {
    && |other| == |code| && HasInst(code, i) && HasOffset(code, i)
    && HasInst(other, i) && !other[i + 1].Buff?
    && (forall x :: 0 <= x < |code| && x != i && x != i + 1 ==> other[x] == code[x])
  }

  lemma {:induction false} SameSpan(code: seq<Slot>, other: seq<Slot>, i: nat, q: int, s: seq<Byte>, j: nat)
    requires ChangedAt(code, other, i) && j <= |s|
    ensures SpanEnd(other, q, s, j) == SpanEnd(code, q, s, j)
    decreases |s| - j
  {
    if j < |s| {
      SameBuffer(code, other, i, q, s[j]);
      if InBuffer(code, q, s[j]) { SameSpan(code, other, i, q, s, j + 1); }
    }
  }

  lemma SameBuffer(code: seq<Slot>, other: seq<Slot>, i: nat, q: int, c: Byte)
    requires ChangedAt(code, other, i)
    ensures InBuffer(other, q, c) == InBuffer(code, q, c)
  {
  }

  // The same instruction away from the change, on stacks that meet.
  lemma SameInstruction(m: Machine, n: Machine, i: nat, q: int, s: nat, x: Stack, y: Stack, caps: seq<Capture>)
    requires m.s == n.s && ChangedAt(m.code, n.code, i) && StacksMeet(m.code, x, y)
    requires q != i && HasInst(m.code, q) && s <= |m.s|
    requires !Step(m, Running(q, s, x, caps)).Stuck?
    ensures StatesMeet(m.code, Step(m, Running(q, s, x, caps)), Step(n, Running(q, s, y, caps)))
  {
    hide Exec, Meets, StacksMeet, Step, SpanEnd, InBuffer;
    if Leaves(m.code[q].op) {
      SameLeaving(m, n, q, q, s, x, y, caps);
    } else if KeepsOp(m.code[q].op) {
      LabelOrStuck(m, q, s, x, caps);
      if HasOffset(m.code, q) { MeetsSelf(m.code, q + m.code[q + 1].off); }
      if s < |m.s| { SameBuffer(m.code, n.code, i, q + 2, m.s[s]); }
      SameWithLabel(m, n, q, q, s, x, y, caps);
    } else {
      SameReading(m, n, i, q, s, x, y, caps);
    }
  }

  lemma LabelOrStuck(m: Machine, q: int, s: nat, x: Stack, caps: seq<Capture>)
    requires HasInst(m.code, q) && Labelled(m.code[q].op) && s <= |m.s|
    ensures !Step(m, Running(q, s, x, caps)).Stuck? ==> HasOffset(m.code, q)
  {
  }

  lemma SameMatching(m: Machine, n: Machine, i: nat, q: int, s: nat, x: Stack, y: Stack, caps: seq<Capture>)
    requires m.s == n.s && ChangedAt(m.code, n.code, i) && StacksMeet(m.code, x, y)
    requires q != i && HasInst(m.code, q) && s <= |m.s|
    requires m.code[q].op in {IAny, IChar, ISet, ISpan, IJmp}
    requires !Step(m, Running(q, s, x, caps)).Stuck?
    ensures StatesMeet(m.code, Step(m, Running(q, s, x, caps)), Step(n, Running(q, s, y, caps)))
  {
    hide Meets, StacksMeet, SpanEnd, InBuffer, CloseCapture;
    MeetsSelf(m.code, q + 1);
    MeetsSelf(m.code, q + CHARSET_INST_SIZE);
    if HasOffset(m.code, q) { MeetsSelf(m.code, q + m.code[q + 1].off); }
    SameSpan(m.code, n.code, i, q + 1, m.s, s);
    if s < |m.s| { SameBuffer(m.code, n.code, i, q + 1, m.s[s]); }
  }

  lemma SameCapturing(m: Machine, n: Machine, i: nat, q: int, s: nat, x: Stack, y: Stack, caps: seq<Capture>)
    requires m.s == n.s && ChangedAt(m.code, n.code, i) && StacksMeet(m.code, x, y)
    requires q != i && HasInst(m.code, q) && s <= |m.s|
    requires !Leaves(m.code[q].op) && !KeepsOp(m.code[q].op)
    requires m.code[q].op !in {IAny, IChar, ISet, ISpan, IJmp}
    requires !Step(m, Running(q, s, x, caps)).Stuck?
    ensures StatesMeet(m.code, Step(m, Running(q, s, x, caps)), Step(n, Running(q, s, y, caps)))
  {
    hide Meets, StacksMeet, SpanEnd, InBuffer, CloseCapture;
    MeetsSelf(m.code, q + 1);
  }

  lemma SameReading(m: Machine, n: Machine, i: nat, q: int, s: nat, x: Stack, y: Stack, caps: seq<Capture>)
    requires m.s == n.s && ChangedAt(m.code, n.code, i) && StacksMeet(m.code, x, y)
    requires q != i && HasInst(m.code, q) && s <= |m.s|
    requires !Leaves(m.code[q].op) && !KeepsOp(m.code[q].op)
    requires !Step(m, Running(q, s, x, caps)).Stuck?
    ensures StatesMeet(m.code, Step(m, Running(q, s, x, caps)), Step(n, Running(q, s, y, caps)))
  {
    hide Exec, Meets, StacksMeet, Step;
    if m.code[q].op in {IAny, IChar, ISet, ISpan, IJmp} {
      SameMatching(m, n, i, q, s, x, y, caps);
    } else {
      SameCapturing(m, n, i, q, s, x, y, caps);
    }
  }

  lemma SameTest(m: Machine, n: Machine, q: int, r: int, s: nat, x: Stack, y: Stack, caps: seq<Capture>)
    requires m.s == n.s && StacksMeet(m.code, x, y) && s <= |m.s|
    requires HasInst(m.code, q) && HasInst(n.code, r) && HasOffset(m.code, q) && HasOffset(n.code, r)
    requires n.code[r] == m.code[q] && m.code[q].op in {ITestAny, ITestChar, ITestSet} && (r == q)
    requires Meets(m.code, q + m.code[q + 1].off, r + n.code[r + 1].off)
    requires m.code[q].op == ITestSet && s < |m.s| ==> InBuffer(m.code, q + 2, m.s[s]) == InBuffer(n.code, r + 2, m.s[s])
    requires !Step(m, Running(q, s, x, caps)).Stuck?
    ensures StatesMeet(m.code, Step(m, Running(q, s, x, caps)), Step(n, Running(r, s, y, caps)))
  {
    hide Meets, InBuffer;
    MeetsSelf(m.code, q + 2);
    MeetsSelf(m.code, q + 1 + CHARSET_INST_SIZE);
  }

  lemma PushMeets(code: seq<Slot>, e: Entry, f: Entry, x: Stack, y: Stack)
    requires StacksMeet(code, x, y) && Meets(code, e.p, f.p)
    requires (e.Ret? && f.Ret?) || (e.Back? && f.Back? && e.s == f.s && e.caplevel == f.caplevel)
    ensures StacksMeet(code, Push(e, x), Push(f, y))
  {
    hide Meets;
  }

  lemma TopMeets(code: seq<Slot>, x: Stack, y: Stack)
    requires StacksMeet(code, x, y) && x.Push? && x.top.Back?
    ensures y.Push? && y.top.Back? && y.top.s == x.top.s && y.top.caplevel == x.top.caplevel
    ensures Meets(code, x.top.p, y.top.p) && StacksMeet(code, x.rest, y.rest)
  {
    hide Meets;
  }

  lemma SamePushing(m: Machine, n: Machine, q: int, s: nat, x: Stack, y: Stack, caps: seq<Capture>)
    requires m.s == n.s && StacksMeet(m.code, x, y) && s <= |m.s|
    requires HasInst(m.code, q) && HasInst(n.code, q) && HasOffset(m.code, q) && HasOffset(n.code, q)
    requires n.code[q] == m.code[q] && m.code[q].op in {IChoice, ICall}
    requires Meets(m.code, q + m.code[q + 1].off, q + n.code[q + 1].off)
    ensures StatesMeet(m.code, Step(m, Running(q, s, x, caps)), Step(n, Running(q, s, y, caps)))
  {
    hide Meets, StacksMeet, StatesMeet, Step;
    MeetsSelf(m.code, q + 2);
    PushStep(m, q, s, x, caps);
    PushStep(n, q, s, y, caps);
    var o, p := m.code[q + 1].off, n.code[q + 1].off;
    if m.code[q].op == IChoice {
      var e, f := Back(q + o, s, |caps|), Back(q + p, s, |caps|);
      PushMeets(m.code, e, f, x, y);
      RunningMeets(m.code, q + 2, q + 2, s, Push(e, x), Push(f, y), caps);
    } else {
      var e := Ret(q + 2);
      PushMeets(m.code, e, e, x, y);
      RunningMeets(m.code, q + o, q + p, s, Push(e, x), Push(e, y), caps);
    }
  }

  lemma PushStep(m: Machine, q: int, s: nat, x: Stack, caps: seq<Capture>)
    requires HasInst(m.code, q) && HasOffset(m.code, q) && m.code[q].op in {IChoice, ICall} && s <= |m.s|
    ensures Step(m, Running(q, s, x, caps)) ==
            if m.code[q].op == IChoice then Running(q + 2, s, Push(Back(q + m.code[q + 1].off, s, |caps|), x), caps)
            else Running(q + m.code[q + 1].off, s, Push(Ret(q + 2), x), caps)
  {
  }

  lemma RunningMeets(code: seq<Slot>, p: int, q: int, s: nat, x: Stack, y: Stack, caps: seq<Capture>)
    requires Meets(code, p, q) && StacksMeet(code, x, y)
    ensures StatesMeet(code, Running(p, s, x, caps), Running(q, s, y, caps))
  {
    hide Meets, StacksMeet;
  }

  lemma SameCommitting(m: Machine, n: Machine, q: int, r: int, s: nat, x: Stack, y: Stack, caps: seq<Capture>)
    requires m.s == n.s && StacksMeet(m.code, x, y) && s <= |m.s|
    requires HasInst(m.code, q) && HasInst(n.code, r) && HasOffset(m.code, q) && HasOffset(n.code, r)
    requires n.code[r] == m.code[q] && Commits(m.code[q].op)
    requires Meets(m.code, q + m.code[q + 1].off, r + n.code[r + 1].off)
    requires !Step(m, Running(q, s, x, caps)).Stuck?
    ensures StatesMeet(m.code, Step(m, Running(q, s, x, caps)), Step(n, Running(r, s, y, caps)))
  {
    hide Meets, StacksMeet;
    assert x.Push? && x.top.Back?;
    TopMeets(m.code, x, y);
    PushMeets(m.code, Back(x.top.p, s, |caps|), Back(y.top.p, s, |caps|), x.rest, y.rest);
  }

  // The same labelled instruction with its label moved along a chain.
  lemma SameWithLabel(m: Machine, n: Machine, q: int, r: int, s: nat, x: Stack, y: Stack, caps: seq<Capture>)
    requires m.s == n.s && StacksMeet(m.code, x, y) && s <= |m.s|
    requires HasInst(m.code, q) && HasInst(n.code, r) && HasOffset(m.code, q) && HasOffset(n.code, r)
    requires n.code[r] == m.code[q] && KeepsOp(m.code[q].op) && (r == q || Commits(m.code[q].op))
    requires Meets(m.code, q + m.code[q + 1].off, r + n.code[r + 1].off)
    requires m.code[q].op == ITestSet && s < |m.s| ==> InBuffer(m.code, q + 2, m.s[s]) == InBuffer(n.code, r + 2, m.s[s])
    requires !Step(m, Running(q, s, x, caps)).Stuck?
    ensures StatesMeet(m.code, Step(m, Running(q, s, x, caps)), Step(n, Running(r, s, y, caps)))
  {
    hide Exec, Meets, StacksMeet, Step, InBuffer;
    if m.code[q].op in {ITestAny, ITestChar, ITestSet} {
      SameTest(m, n, q, r, s, x, y, caps);
    } else if Commits(m.code[q].op) {
      SameCommitting(m, n, q, r, s, x, y, caps);
    } else {
      SamePushing(m, n, q, s, x, y, caps);
    }
  }

  // An instruction that leaves its place behind does so from anywhere.
  lemma SameLeaving(m: Machine, n: Machine, q: int, r: int, s: nat, x: Stack, y: Stack, caps: seq<Capture>)
    requires m.s == n.s && StacksMeet(m.code, x, y) && s <= |m.s|
    requires HasInst(m.code, q) && HasInst(n.code, r) && n.code[r] == m.code[q] && Leaves(m.code[q].op)
    requires !Step(m, Running(q, s, x, caps)).Stuck?
    ensures StatesMeet(m.code, Step(m, Running(q, s, x, caps)), Step(n, Running(r, s, y, caps)))
  {
    hide Meets;
  }

  lemma OptimizeChanges(code: seq<Slot>, i: nat)
    requires OptimizeAt(code, i) != code
    ensures ChangedAt(code, OptimizeAt(code, i), i)
  {
    hide FinalTarget;
  }

  // A copied commit keeps a label on the chain of the original one.
  lemma CopiedLabelMeets(code: seq<Slot>, i: nat, ft: int)
    requires IsJump(code, i) && HasInst(code, ft) && Commits(code[ft].op) && HasOffset(code, ft)
    ensures var copied := code[i := code[ft]][i + 1 := Offset(FinalLabel(code, ft) - i)];
            Meets(code, ft + code[ft + 1].off, FinalLabel(copied, i))
  {
    var copied := code[i := code[ft]][i + 1 := Offset(FinalLabel(code, ft) - i)];
    var n := FewerJumps(code, copied, i, FinalLabel(code, ft), ChainBound(copied));
    ChainAdds(code, ft + code[ft + 1].off, ChainBound(code), n);
    MeetsChain(code, ft + code[ft + 1].off, ChainBound(code) + n);
  }

  // Without the jump at `i` a chain just ends earlier.
  lemma {:induction false} FewerJumps(code: seq<Slot>, other: seq<Slot>, i: nat, q: int, n: nat) returns (k: nat)
    requires ChangedAt(code, other, i) && !IsJump(other, i) && other[i + 1].Offset?
    ensures FinalTarget(other, q, n) == FinalTarget(code, q, k)
    decreases n
  {
    if n == 0 || !IsJump(other, q) {
      k := 0;
    } else {
      var rest := FewerJumps(code, other, i, q + other[q + 1].off, n - 1);
      k := rest + 1;
    }
  }

  // -------------------------------------------------------------------------
  // One change
  // -------------------------------------------------------------------------

  // `a` stands at an instruction that is no jump, and `b` at one whose chain
  // leads there. With the code changed, `b` does what `a` does, in one step or
  // a few.
  lemma {:induction false} CatchUp(m: Machine, n: Machine, i: nat, q: int, p: int, y: nat, s: nat,
                                   x: Stack, z: Stack, caps: seq<Capture>) returns (k: nat)
    requires m.s == n.s && n.code == OptimizeAt(m.code, i) && n.code != m.code
    requires HasInst(m.code, q) && !IsJump(m.code, q) && s <= |m.s|
    requires FinalTarget(m.code, p, y) == q && StacksMeet(m.code, x, z)
    requires !Step(m, Running(q, s, x, caps)).Stuck?
    ensures StatesMeet(m.code, Step(m, Running(q, s, x, caps)), Run(n, Running(p, s, z, caps), k))
    decreases y
  {
    hide Exec, Meets, StacksMeet, FinalTarget, StatesMeet;
    OptimizeChanges(m.code, i);
    var b := Running(p, s, z, caps);
    assert Run(n, b, 1) == Step(n, b) by { RunOnce(n, b); }
    if p == q {
      k := 1;
      if q != i {
        SameInstruction(m, n, i, q, s, x, z, caps);
      } else {
        SameRelabelled(m, n, i, s, x, z, caps);
      }
    } else {
      NotYetThere(m.code, p, y, q);
      var target := p + m.code[p + 1].off;
      if p != i {
        JumpTaken(n, p, target, s, z, caps);
        var rest := CatchUp(m, n, i, q, target, y - 1, s, x, z, caps);
        RunAdds(n, b, 1, rest);
        k := 1 + rest;
      } else {
        k := CatchUpAtJump(m, n, i, q, y, s, x, z, caps);
      }
    }
  }

  lemma RunOnce(n: Machine, b: State)
    ensures Run(n, b, 1) == Step(n, b)
  {
    hide Step;
    assert Run(n, Step(n, b), 0) == Step(n, b);
  }

  lemma NotYetThere(code: seq<Slot>, p: int, y: nat, q: int)
    requires FinalTarget(code, p, y) == q && p != q
    ensures y > 0 && IsJump(code, p) && FinalTarget(code, p + code[p + 1].off, y - 1) == q
  {
  }

  lemma JumpTaken(n: Machine, p: int, target: int, s: nat, z: Stack, caps: seq<Capture>)
    requires IsJump(n.code, p) && s <= |n.s| && target == p + n.code[p + 1].off
    ensures Step(n, Running(p, s, z, caps)) == Running(target, s, z, caps)
  {
  }

  // The changed instruction itself, when it kept its opcode.
  lemma SameRelabelled(m: Machine, n: Machine, i: nat, s: nat, x: Stack, z: Stack, caps: seq<Capture>)
    requires m.s == n.s && n.code == OptimizeAt(m.code, i) && n.code != m.code
    requires HasInst(m.code, i) && !IsJump(m.code, i) && s <= |m.s| && StacksMeet(m.code, x, z)
    requires !Step(m, Running(i, s, x, caps)).Stuck?
    ensures StatesMeet(m.code, Step(m, Running(i, s, x, caps)), Step(n, Running(i, s, z, caps)))
  {
    hide Exec, Meets, StacksMeet, FinalTarget, StatesMeet, Step;
    MeetsChain(m.code, i + m.code[i + 1].off, ChainBound(m.code));
    OptimizeChanges(m.code, i);
    if s < |m.s| { SameBuffer(m.code, n.code, i, i + 2, m.s[s]); }
    SameWithLabel(m, n, i, i, s, x, z, caps);
  }

  // The changed instruction was a jump.
  lemma {:induction false} CatchUpAtJump(m: Machine, n: Machine, i: nat, q: int, y: nat, s: nat,
                                         x: Stack, z: Stack, caps: seq<Capture>) returns (k: nat)
    requires m.s == n.s && n.code == OptimizeAt(m.code, i) && n.code != m.code
    requires IsJump(m.code, i) && HasInst(m.code, q) && !IsJump(m.code, q) && s <= |m.s|
    requires FinalTarget(m.code, i, y) == q && StacksMeet(m.code, x, z) && y > 0
    requires !Step(m, Running(q, s, x, caps)).Stuck?
    ensures StatesMeet(m.code, Step(m, Running(q, s, x, caps)), Run(n, Running(i, s, z, caps), k))
    decreases y, 0
  {
    hide Exec, Meets, StacksMeet, FinalTarget, StatesMeet, Step, Run;
    var b := Running(i, s, z, caps);
    RunOnce(n, b);
    var bound := ChainBound(m.code);
    var ft := FinalTarget(m.code, i, bound);
    if HasInst(m.code, ft) && Leaves(m.code[ft].op) {
      EndIsUnique(m.code, i, bound, y);
      SameLeaving(m, n, q, i, s, x, z, caps);
      k := 1;
    } else if HasInst(m.code, ft) && Commits(m.code[ft].op) && HasOffset(m.code, ft) {
      EndIsUnique(m.code, i, bound, y);
      CopiedLabelMeets(m.code, i, q);
      SameWithLabel(m, n, q, i, s, x, z, caps);
      k := 1;
    } else {
      JumpTaken(n, i, ft, s, z, caps);
      var left := ChainLeft(m.code, i, bound, y, q);
      var rest := CatchUp(m, n, i, q, ft, left, s, x, z, caps);
      RunAdds(n, b, 1, rest);
      k := 1 + rest;
    }
  }

  // How far it still is from the final target to the end of the chain.
  lemma ChainLeft(code: seq<Slot>, i: int, bound: nat, y: nat, q: int) returns (left: nat)
    requires FinalTarget(code, i, y) == q && !IsJump(code, q) && y > 0 && bound > 0
    ensures left < y && FinalTarget(code, FinalTarget(code, i, bound), left) == q
  {
    if y <= bound {
      ChainAdds(code, i, y, bound - y);
      ChainStops(code, q, bound - y);
      left := 0;
    } else {
      ChainAdds(code, i, bound, y - bound);
      left := y - bound;
    }
  }

  // Whatever `a` comes to in the old code, `b` comes to in the new one.
  lemma {:induction false} ChangePreserves(m: Machine, n: Machine, i: nat, a: State, b: State, steps: nat) returns (k: nat)
    requires m.s == n.s && n.code == OptimizeAt(m.code, i) && n.code != m.code
    requires StatesMeet(m.code, a, b)
    requires Final(Run(m, a, steps)) && !Run(m, a, steps).Stuck?
    ensures Run(n, b, k) == Run(m, a, steps)
    decreases steps
  {
    hide Exec, Meets, StacksMeet, FinalTarget, Step;
    if steps == 0 {
      k := 0;
    } else if Final(a) {
      FinalStays(m, a, steps);
      k := 0;
    } else {
      var next := Step(m, a);
      NeverStuck(m, next, steps - 1);
      var ahead := StepMatched(m, n, i, a, b);
      var rest := ChangePreserves(m, n, i, next, Run(n, b, ahead), steps - 1);
      RunAdds(n, b, ahead, rest);
      k := ahead + rest;
    }
  }

  lemma NeverStuck(m: Machine, a: State, steps: nat)
    requires !Run(m, a, steps).Stuck?
    ensures !a.Stuck?
  {
    if a.Stuck? { FinalStays(m, a, steps); }
  }

  lemma {:induction false} StepMatched(m: Machine, n: Machine, i: nat, a: State, b: State) returns (k: nat)
    requires m.s == n.s && n.code == OptimizeAt(m.code, i) && n.code != m.code
    requires StatesMeet(m.code, a, b) && !Final(a) && !Step(m, a).Stuck?
    ensures StatesMeet(m.code, Step(m, a), Run(n, b, k))
  {
    hide Exec, Meets, FinalTarget, OptimizeAt;
    if a.Failing? {
      k := 1;
      RunOnce(n, b);
    } else {
      var Running(pc, s, x, caps) := a;
      if pc == GIVEUP {
        k := GiveUpReached(m, n, i, b);
      } else if IsJump(m.code, pc) {
        MeetsAfterJump(m.code, pc, b.pc);
        JumpTaken(m, pc, pc + m.code[pc + 1].off, s, x, caps);
        k := 0;
      } else {
        var y := MeetsEnd(m.code, pc, b.pc);
        k := CatchUp(m, n, i, pc, b.pc, y, s, x, b.stack, caps);
      }
    }
  }

  lemma GiveUpReached(m: Machine, n: Machine, i: nat, b: State) returns (k: nat)
    requires n.code == OptimizeAt(m.code, i) && n.code != m.code && m.s == n.s
    requires b.Running? && Meets(m.code, GIVEUP, b.pc) && b.s <= |m.s|
    ensures Run(n, b, k) == GaveUp
  {
    hide Meets, OptimizeAt;
    var y := MeetsEnd(m.code, GIVEUP, b.pc);
    k := JumpsToGiveUp(m, n, i, b, y);
  }

  lemma {:induction false} JumpsToGiveUp(m: Machine, n: Machine, i: nat, b: State, y: nat) returns (k: nat)
    requires n.code == OptimizeAt(m.code, i) && n.code != m.code && m.s == n.s
    requires b.Running? && FinalTarget(m.code, b.pc, y) == GIVEUP && b.s <= |m.s|
    ensures Run(n, b, k) == GaveUp
    decreases y
  {
    hide Exec, FinalTarget, Step, Run;
    OptimizeChanges(m.code, i);
    RunOnce(n, b);
    var Running(p, s, z, caps) := b;
    if p == GIVEUP {
      StepGivesUp(n, b);
      k := 1;
    } else {
      NotYetThere(m.code, p, y, GIVEUP);
      var target := if p != i then p + m.code[p + 1].off else FinalTarget(m.code, i, ChainBound(m.code));
      var left := y - 1;
      if p == i {
        EndNotInst(m.code, i, y, ChainBound(m.code));
        left := ChainLeft(m.code, i, ChainBound(m.code), y, GIVEUP);
      }
      JumpTaken(n, p, target, s, z, caps);
      var rest := JumpsToGiveUp(m, n, i, Running(target, s, z, caps), left);
      RunAdds(n, b, 1, rest);
      k := 1 + rest;
    }
  }

  lemma StepGivesUp(n: Machine, b: State)
    requires b.Running? && b.pc == GIVEUP && b.s <= |n.s|
    ensures Step(n, b) == GaveUp
  {
  }

  // A chain that runs out of the code holds nothing but jumps on the way.
  lemma EndNotInst(code: seq<Slot>, i: int, y: nat, bound: nat)
    requires FinalTarget(code, i, y) == GIVEUP
    ensures var ft := FinalTarget(code, i, bound); HasInst(code, ft) ==> code[ft].op == IJmp
  {
    var ft := FinalTarget(code, i, bound);
    if HasInst(code, ft) && code[ft].op != IJmp { EndIsUnique(code, i, y, bound); }
  }

  // -------------------------------------------------------------------------
  // The whole pass
  // -------------------------------------------------------------------------

  // The optimized code comes to the same end as the code it was made from, for
  // every subject and every start.
  lemma {:induction false} PeepholePreserves(code: seq<Slot>, q: nat, s: seq<Byte>, start: State, steps: nat) returns (k: nat)
    requires Final(Run(Machine(code, s), start, steps)) && !Run(Machine(code, s), start, steps).Stuck?
    ensures Run(Machine(PeepholeFrom(code, q), s), start, k) == Run(Machine(code, s), start, steps)
    decreases |code| - q
  {
    hide OptimizeAt, Run, Meets, StacksMeet;
    if q >= |code| {
      k := steps;
    } else {
      var next := OptimizeAt(code, q);
      var k1 := steps;
      if next != code {
        StateMeetsSelf(code, start);
        k1 := ChangePreserves(Machine(code, s), Machine(next, s), q, start, start, steps);
      }
      k := PeepholePreserves(next, q + Width(next[q]), s, start, k1);
    }
  }

  lemma StateMeetsSelf(code: seq<Slot>, a: State)
    ensures StatesMeet(code, a, a)
  {
    if a.Running? { MeetsSelf(code, a.pc); StackMeetsSelf(code, a.stack); }
    if a.Failing? { StackMeetsSelf(code, a.stack); }
  }
}
