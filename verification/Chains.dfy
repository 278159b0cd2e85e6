// Chains of jumps in code.

module Chains {
  // When the loop of `finaltarget` ends, how long it can go on, and what the
  // changes that the compiler makes to its code do to chains.

  import opened Vm
  import opened CodeGen
  import opened Calls
  import opened Peephole

  ghost predicate Ends(code: seq<Slot>, q: int) {
    exists n: nat :: !IsJump(code, FinalTarget(code, q, n))
  }

  ghost predicate EndsIn(code: seq<Slot>, lo: int, hi: int) {
    forall x :: lo <= x <= hi ==> Ends(code, x)
  }

  ghost predicate AllEnd(code: seq<Slot>) {
    forall x :: Ends(code, x)
  }

  lemma NoJumpEnds(code: seq<Slot>, q: int)
    requires !IsJump(code, q)
    ensures Ends(code, q)
  {
    assert FinalTarget(code, q, 0) == q;
  }

  lemma JumpEnds(code: seq<Slot>, q: int)
    requires IsJump(code, q) && Ends(code, q + code[q + 1].off)
    ensures Ends(code, q)
  {
    var n: nat :| !IsJump(code, FinalTarget(code, q + code[q + 1].off, n));
    var more := n + 1;
    assert FinalTarget(code, q, more) == FinalTarget(code, q + code[q + 1].off, n);
  }

  lemma EndsInJoin(code: seq<Slot>, lo: int, mid: int, hi: int)
    requires EndsIn(code, lo, mid) && EndsIn(code, mid, hi)
    ensures EndsIn(code, lo, hi)
  {
  }

  // Where `other` has the jumps of `code`, and possibly more, its chains are
  // the longer ones.
  lemma {:induction false} FewerJumpsEnd(code: seq<Slot>, other: seq<Slot>, shift: int, q: int, n: nat)
    requires forall x :: IsJump(code, x) ==> IsJump(other, x + shift) && other[x + shift + 1] == code[x + 1]
    requires !IsJump(other, FinalTarget(other, q + shift, n))
    ensures Ends(code, q)
    decreases n
  {
    if IsJump(code, q) {
      assert IsJump(other, q + shift);
      FewerJumpsEnd(code, other, shift, q + code[q + 1].off, n - 1);
      JumpEnds(code, q);
    } else {
      NoJumpEnds(code, q);
    }
  }

  lemma AllEndBack(code: seq<Slot>, other: seq<Slot>, shift: int)
    requires forall x :: IsJump(code, x) ==> IsJump(other, x + shift) && other[x + shift + 1] == code[x + 1]
    requires forall x :: IsJump(code, x) ==> Ends(other, x + shift)
    ensures AllEnd(code)
  {
    hide IsJump;
    forall x ensures Ends(code, x) {
      if IsJump(code, x) {
        var n: nat :| !IsJump(other, FinalTarget(other, x + shift, n));
        FewerJumpsEnd(code, other, shift, x, n);
      } else {
        NoJumpEnds(code, x);
      }
    }
  }

  // All chains in the rules of a grammar end, and none leads into the code in
  // front of them.
  ghost predicate Contained(code: seq<Slot>) {
    && AllEnd(code)
    && forall q: nat, n: nat :: FinalTarget(code, q, n) >= -1
  }

  lemma StillEnds(code: seq<Slot>, q: int)
    requires Ends(code, q) && IsJump(code, q)
    ensures Ends(code, q + code[q + 1].off)
  {
    var n: nat :| !IsJump(code, FinalTarget(code, q, n));
    assert FinalTarget(code, q, n) == FinalTarget(code, q + code[q + 1].off, n - 1);
  }

  // In the middle of correcting calls there are fewer jumps than at the end.
  lemma BeforeCorrection(code: seq<Slot>, positions: seq<nat>, i: nat)
    requires Laid(code) && Contained(CorrectCalls(code, positions, i))
    ensures Contained(code)
  {
    hide Laid, Ends, CorrectCalls, CallsRule;
    var r := CorrectCalls(code, positions, i);
    CorrectCallsResult(code, positions, i);
    forall x | IsJump(code, x) ensures IsJump(r, x + 0) && r[x + 0 + 1] == code[x + 1] {
      assert Settled(code[x]) && Settled(code[x + 1]);
    }
    AllEndBack(code, r, 0);
    forall q: nat, n: nat ensures FinalTarget(code, q, n) >= -1 {
      var k := ShorterChain(code, r, q, n);
    }
  }

  lemma {:induction false} ShorterChain(code: seq<Slot>, other: seq<Slot>, q: int, n: nat) returns (k: nat)
    requires forall x :: IsJump(code, x) ==> IsJump(other, x + 0) && other[x + 0 + 1] == code[x + 1]
    ensures FinalTarget(code, q, n) == FinalTarget(other, q, k)
    decreases n
  {
    if n == 0 || !IsJump(code, q) {
      k := 0;
    } else {
      assert IsJump(other, q + 0);
      var rest := ShorterChain(code, other, q + code[q + 1].off, n - 1);
      k := rest + 1;
    }
  }

  // -------------------------------------------------------------------------
  // How long a chain can be
  // -------------------------------------------------------------------------

  // The addresses that the next `n` jumps from `q` start at.
  ghost function Passed(code: seq<Slot>, q: int, n: nat): (r: set<int>)
    ensures forall x :: x in r ==> 0 <= x < |code|
    decreases n
  {
    if n == 0 || !IsJump(code, q) then {} else {q} + Passed(code, q + code[q + 1].off, n - 1)
  }

  lemma {:induction false} PassedAt(code: seq<Slot>, q: int, n: nat, x: int) returns (k: nat)
    requires x in Passed(code, q, n)
    ensures k < n && FinalTarget(code, q, k) == x
    decreases n
  {
    if x == q {
      k := 0;
    } else {
      var before := PassedAt(code, q + code[q + 1].off, n - 1, x);
      k := before + 1;
    }
  }

  // A chain that comes back does not end.
  lemma ComesBack(code: seq<Slot>, q: int, n: nat, k: nat)
    requires forall j :: 0 <= j < n ==> IsJump(code, FinalTarget(code, q, j))
    requires 0 < k <= n && FinalTarget(code, q, k) == q
    ensures IsJump(code, FinalTarget(code, q, n))
  {
    ChainAdds(code, q, k, n - k);
    assert IsJump(code, FinalTarget(code, q, n - k));
  }

  // A chain that ends never comes back to where it has been.
  lemma {:induction false} PassedOnce(code: seq<Slot>, q: int, n: nat)
    requires forall k :: 0 <= k < n ==> IsJump(code, FinalTarget(code, q, k))
    requires !IsJump(code, FinalTarget(code, q, n))
    ensures |Passed(code, q, n)| == n
    decreases n
  {
    if n > 0 {
      assert IsJump(code, FinalTarget(code, q, 0));
      var next := q + code[q + 1].off;
      forall k | 0 <= k < n - 1 ensures IsJump(code, FinalTarget(code, next, k)) {
        var later := k + 1;
        assert IsJump(code, FinalTarget(code, q, later));
      }
      PassedOnce(code, next, n - 1);
      if q in Passed(code, next, n - 1) {
        var k := PassedAt(code, next, n - 1, q);
        ComesBack(code, q, n, k + 1);
      }
    }
  }

  lemma {:induction false} Shortest(code: seq<Slot>, q: int, n: nat) returns (k: nat)
    requires !IsJump(code, FinalTarget(code, q, n))
    ensures !IsJump(code, FinalTarget(code, q, k))
    ensures forall j :: 0 <= j < k ==> IsJump(code, FinalTarget(code, q, j))
    decreases n
  {
    if IsJump(code, q) {
      var rest := Shortest(code, q + code[q + 1].off, n - 1);
      k := rest + 1;
      forall j | 0 <= j < k ensures IsJump(code, FinalTarget(code, q, j)) {
        if j > 0 { assert IsJump(code, FinalTarget(code, q + code[q + 1].off, j - 1)); }
      }
    } else {
      k := 0;
    }
  }

  lemma {:induction false} BelowCount(s: set<int>, n: nat)
    requires forall x :: x in s ==> 0 <= x < n
    ensures |s| <= n
    decreases n
  {
    if n == 0 {
      assert forall x :: x !in s;
    } else {
      BelowCount(s - {n - 1}, n - 1);
    }
  }

  // So the bound in `FinalTarget` is never reached by a chain that ends.
  lemma BoundSuffices(code: seq<Slot>, q: int)
    requires Ends(code, q)
    ensures !IsJump(code, FinalTarget(code, q, ChainBound(code)))
  {
    var n: nat :| !IsJump(code, FinalTarget(code, q, n));
    var k := Shortest(code, q, n);
    PassedOnce(code, q, k);
    BelowCount(Passed(code, q, k), |code|);
    ChainAdds(code, q, k, ChainBound(code) - k);
    ChainStops(code, FinalTarget(code, q, k), ChainBound(code) - k);
  }

  // -------------------------------------------------------------------------
  // The peephole optimizer
  // -------------------------------------------------------------------------

  // Optimizing an instruction makes no chain endless.
  lemma OptimizedEnds(code: seq<Slot>, i: nat)
    requires AllEnd(code)
    ensures AllEnd(OptimizeAt(code, i))
  {
    hide Ends, FinalTarget;
    var r := OptimizeAt(code, i);
    if r != code {
      OptimizeChanges(code, i);
      if IsJump(r, i) {
        Retargeted(code, i);
      } else {
        forall x | IsJump(r, x) ensures IsJump(code, x + 0) && code[x + 0 + 1] == r[x + 1] {}
        AllEndBack(r, code, 0);
      }
    }
  }

  lemma Retargeted(code: seq<Slot>, i: nat)
    requires AllEnd(code) && IsJump(code, i)
    ensures AllEnd(JumpToThere(code, i, FinalTarget(code, i, ChainBound(code))))
  {
    hide Ends;
    var ft := FinalTarget(code, i, ChainBound(code));
    var r := JumpToThere(code, i, ft);
    BoundSuffices(code, i);
    NoJumpEnds(r, ft);
    JumpEnds(r, i);
    forall x ensures Ends(r, x) {
      assert Ends(code, x);
      RetargetedEnds(code, r, i, x);
    }
  }

  lemma RetargetedEnds(code: seq<Slot>, r: seq<Slot>, i: nat, x: int)
    requires IsJump(code, i) && Ends(code, x) && Ends(r, i)
    requires exists o: int :: r == code[i + 1 := Offset(o)]
    ensures Ends(r, x)
  {
    var n: nat :| !IsJump(code, FinalTarget(code, x, n));
    RetargetedChain(code, r, i, x, n);
  }

  lemma {:induction false} RetargetedChain(code: seq<Slot>, r: seq<Slot>, i: nat, x: int, n: nat)
    requires IsJump(code, i) && Ends(r, i) && !IsJump(code, FinalTarget(code, x, n))
    requires exists o: int :: r == code[i + 1 := Offset(o)]
    ensures Ends(r, x)
    decreases n
  {
    if x == i {
    } else if IsJump(r, x) {
      RetargetedChain(code, r, i, x + code[x + 1].off, n - 1);
      JumpEnds(r, x);
    } else {
      NoJumpEnds(r, x);
    }
  }

  // -------------------------------------------------------------------------
  // Code behind other code
  // -------------------------------------------------------------------------

  lemma {:induction false} ChainBehind(front: seq<Slot>, body: seq<Slot>, q: nat, n: nat)
    requires Contained(body) && |front| > 0 && !front[|front| - 1].Inst?
    ensures FinalTarget(front + body, |front| + q, n) == |front| + FinalTarget(body, q, n)
    decreases n
  {
    hide Ends;
    var code := front + body;
    if q < |body| { assert code[|front| + q] == body[q]; }
    if q + 1 < |body| { assert code[|front| + q + 1] == body[q + 1]; }
    if n > 0 && IsJump(body, q) {
      var next := q + body[q + 1].off;
      assert FinalTarget(body, q, 1) == FinalTarget(body, next, 0) == next;
      if next >= 0 {
        ChainBehind(front, body, next, n - 1);
      } else {
        assert code[|front| - 1] == front[|front| - 1];
        ChainStops(body, next, n - 1);
        ChainStops(code, |front| + next, n - 1);
      }
    }
  }

  // Looking for a return in the whole code or in its last part is the same.
  lemma ReturnBehind(front: seq<Slot>, body: seq<Slot>, q: nat)
    requires Contained(body) && |front| > 0 && !front[|front| - 1].Inst?
    ensures Ends(front + body, |front| + q)
    ensures IsOp(front + body, FinalTarget(front + body, |front| + q, ChainBound(front + body)), IRet)
        <==> IsOp(body, FinalTarget(body, q, ChainBound(body)), IRet)
  {
    var code := front + body;
    var small, large := ChainBound(body), ChainBound(code);
    var x := FinalTarget(body, q, small);
    assert Ends(body, q);
    BoundSuffices(body, q);
    ChainAdds(body, q, small, large - small);
    ChainStops(body, x, large - small);
    ChainBehind(front, body, q, large);
    assert FinalTarget(code, |front| + q, large) == |front| + x && x >= -1;
    if 0 <= x < |body| { assert code[|front| + x] == body[x]; }
    if 0 <= x && x + 1 < |body| { assert code[|front| + x + 1] == body[x + 1]; }
    if x == -1 { assert code[|front| - 1] == front[|front| - 1]; }
    assert !IsJump(code, FinalTarget(code, |front| + q, large));
  }

  // -------------------------------------------------------------------------
  // What the pass leaves
  // -------------------------------------------------------------------------

  // The label of the instruction is no jump; and a jump does not lead to an
  // instruction that it could be itself.
  predicate Finished(code: seq<Slot>, x: int) {
    HasInst(code, x) && HasOffset(code, x) && (KeepsOp(code[x].op) || code[x].op == IJmp) ==>
      var goal := x + code[x + 1].off;
      && !IsJump(code, goal)
      && (code[x].op == IJmp && HasInst(code, goal) ==>
            !Leaves(code[goal].op) && !(Commits(code[goal].op) && HasOffset(code, goal)))
  }

  // The addresses of instructions from `i` on.
  function Walk(code: seq<Slot>, i: nat): seq<nat>
    decreases |code| - i
  {
    if i >= |code| then [] else [i] + Walk(code, i + Width(code[i]))
  }

  lemma FinishedLabel(code: seq<Slot>, i: nat, target: int)
    requires HasInst(code, i) && HasOffset(code, i) && KeepsOp(code[i].op) && !IsJump(code, target)
    ensures Finished(JumpToThere(code, i, target), i)
  {
  }

  lemma FinishedJump(code: seq<Slot>, i: nat)
    requires IsJump(code, i) && AllEnd(code)
    ensures Finished(OptimizeJump(code, i), i)
  {
    hide AllEnd, Ends, FinalTarget;
    var ft := FinalTarget(code, i, ChainBound(code));
    EndsAt(code, i);
    BoundSuffices(code, i);
    if HasInst(code, ft) && Commits(code[ft].op) && HasOffset(code, ft) {
      var fft := FinalLabel(code, ft);
      EndsAt(code, ft + code[ft + 1].off);
      BoundSuffices(code, ft + code[ft + 1].off);
      var copied := code[i := code[ft]][i + 1 := Offset(fft - i)];
      ChainStops(copied, fft, ChainBound(copied));
      FinishedLabel(copied, i, fft);
    }
  }

  lemma EndsAt(code: seq<Slot>, q: int)
    requires AllEnd(code)
    ensures Ends(code, q)
  {
  }

  lemma FinishedAt(code: seq<Slot>, i: nat)
    requires AllEnd(code)
    ensures Finished(OptimizeAt(code, i), i)
  {
    hide AllEnd, Ends, FinalTarget, OptimizeJump, Finished;
    if HasInst(code, i) && HasOffset(code, i) {
      if KeepsOp(code[i].op) {
        EndsAt(code, i + code[i + 1].off);
        BoundSuffices(code, i + code[i + 1].off);
        FinishedLabel(code, i, FinalLabel(code, i));
      } else if code[i].op == IJmp {
        FinishedJump(code, i);
      } else {
        NothingToFinish(code, i);
      }
    } else {
      NothingToFinish(code, i);
    }
  }

  lemma NothingToFinish(code: seq<Slot>, i: nat)
    requires HasInst(code, i) && HasOffset(code, i) ==> !KeepsOp(code[i].op) && code[i].op != IJmp
    ensures Finished(code, i)
  {
  }

  // What a change may do to the slots: no jump is made out of something else.
  lemma ChangeIs(code: seq<Slot>, j: nat)
    ensures var r := OptimizeAt(code, j);
            && (forall y :: 0 <= y < |code| && y != j && y != j + 1 ==> r[y] == code[y])
            && (r != code ==> HasInst(code, j) && HasOffset(code, j) && r[j].Inst?)
            && (r != code && code[j].op != IJmp ==> r[j] == code[j] && r[j + 1].Offset?)
            && (r != code && code[j].op == IJmp ==> r[j + 1].Offset? || r[j + 1] == Inst(IAny, 0, 0))
  {
    hide FinalTarget;
  }

  // Later changes do not undo it.
  lemma FinishedStays(code: seq<Slot>, j: nat, x: nat)
    requires Finished(code, x) && x < |code| && x + Width(code[x]) <= j
    ensures Finished(OptimizeAt(code, j), x)
  {
    hide OptimizeAt;
    ChangeIs(code, j);
  }

  lemma {:induction false} FinishedKept(code: seq<Slot>, j: nat, x: nat)
    requires Finished(code, x) && x < |code| && x + Width(code[x]) <= j
    ensures Finished(PeepholeFrom(code, j), x) && PeepholeFrom(code, j)[x] == code[x]
    decreases |code| - j
  {
    hide OptimizeAt, Finished;
    if j < |code| {
      var next := OptimizeAt(code, j);
      FinishedStays(code, j, x);
      ChangeIs(code, j);
      FinishedKept(next, j + Width(next[j]), x);
    }
  }

  // `peephole` does all that it is for, in code whose chains end: in the result the label
  // of no instruction is a jump, and no jump leads to a return, a failure, the end
  // or a commit.
  lemma {:induction false} PeepholeFinishes(code: seq<Slot>, i: nat)
    requires AllEnd(code)
    ensures forall x :: x in Walk(PeepholeFrom(code, i), i) ==> Finished(PeepholeFrom(code, i), x)
    decreases |code| - i
  {
    hide OptimizeAt, Finished, AllEnd;
    if i < |code| {
      var next := OptimizeAt(code, i);
      var j := i + Width(next[i]);
      FinishedAt(code, i);
      OptimizedEnds(code, i);
      PeepholeFinishes(next, j);
      FinishedKept(next, j, i);
    }
  }
}
