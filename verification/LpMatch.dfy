// `lp_match` of lptree.c.

module LpMatch {
  // A pattern is fixed and compiled, and its code is run on the subject.

  import opened PegSyntax
  import opened Analysis
  import opened Vm
  import opened CompilerCorrect
  import opened Compiler
  import opened Termination
  import Depths
  import Emit
  import Matcher
  import opened Trees
  import opened FlatTrees

  // -------------------------------------------------------------------------
  // Fixing the associativity keeps everything that is checked of a pattern
  // -------------------------------------------------------------------------

  // Two trees that no check tells apart.
  ghost predicate Alike(rules: seq<Tree>, below: nat, t: Tree, r: Tree) {
    && Depths.Height(r) == Depths.Height(t) && CalledBy(r) == CalledBy(t)
    && (forall d: nat, b: bool :: CheckAux(d, rules, r, b) == CheckAux(d, rules, t, b))
    && (forall d: nat :: CheckLoops(d, rules, r) == CheckLoops(d, rules, t))
    && (forall marks: seq<bool> :: |marks| == |rules| ==> FixedLen(rules, marks, r) == FixedLen(rules, marks, t))
    && Accepted(true, below, r) == Accepted(true, below, t) && WellFormed(rules, r) == WellFormed(rules, t)
  }

  lemma AlikeSelf(rules: seq<Tree>, below: nat, t: Tree)
    ensures Alike(rules, below, t, t)
  {
  }

  lemma AlikeTrans(rules: seq<Tree>, below: nat, t: Tree, r: Tree, x: Tree)
    requires Alike(rules, below, t, r) && Alike(rules, below, r, x)
    ensures Alike(rules, below, t, x)
  {
    hide CheckAux, CheckLoops, FixedLen, Accepted, WellFormed, CalledBy, Depths.Height;
  }

  lemma AlikeTurned(rules: seq<Tree>, below: nat, t: Tree)
    requires (t.TSeq? || t.TChoice?) && SameOp(t.p1, t)
    ensures Alike(rules, below, t, Op(t, t.p1.p1, Op(t, t.p1.p2, t.p2)))
  {
    var a, b, c := t.p1.p1, t.p1.p2, t.p2;
    var low := Op(t, b, c);
    var r := Op(t, a, low);
    assert t.p1 == Op(t, a, b) && t == Op(t, t.p1, c);
    assert CalledBy(t) == CalledBy(t.p1) + CalledBy(c) && CalledBy(low) == CalledBy(b) + CalledBy(c);
    assert Depths.Height(low) == Depths.Max(Depths.Height(b), Depths.Height(c));
    forall d: nat, f: bool ensures CheckAux(d, rules, r, f) == CheckAux(d, rules, t, f) {
      CheckOp(d, rules, t, t.p1, c, f);
      CheckOp(d, rules, t, a, b, f);
      CheckOp(d, rules, t, b, c, f);
      CheckOp(d, rules, t, a, low, f);
    }
    forall d: nat ensures CheckLoops(d, rules, r) == CheckLoops(d, rules, t) {
      assert CheckLoops(d, rules, low) == (CheckLoops(d, rules, b) || CheckLoops(d, rules, c));
    }
    forall marks: seq<bool> | |marks| == |rules| ensures FixedLen(rules, marks, r) == FixedLen(rules, marks, t) {
      LengthOp(rules, marks, t, t.p1, c);
      LengthOp(rules, marks, t, a, b);
      LengthOp(rules, marks, t, b, c);
      LengthOp(rules, marks, t, a, low);
    }
    assert Accepted(true, below, low) == (Accepted(true, below, b) && Accepted(true, below, c));
    assert WellFormed(rules, low) == (WellFormed(rules, b) && WellFormed(rules, c));
  }

  lemma CheckOp(depth: nat, rules: seq<Tree>, t: Tree, a: Tree, b: Tree, nofail: bool)
    requires t.TSeq? || t.TChoice?
    ensures var x, y := CheckAux(depth, rules, a, nofail), CheckAux(depth, rules, b, nofail);
            CheckAux(depth, rules, Op(t, a, b), nofail) == if t.TSeq? then x && y else x || y
  {
  }

  lemma LengthOp(rules: seq<Tree>, marks: seq<bool>, t: Tree, a: Tree, b: Tree)
    requires (t.TSeq? || t.TChoice?) && |marks| == |rules|
    ensures var x, y := FixedLen(rules, marks, a), FixedLen(rules, marks, b);
            FixedLen(rules, marks, Op(t, a, b)) ==
            if t.TSeq? then (if x < 0 || y < 0 then -1 else x + y) else (if x != y || x < 0 then -1 else x)
  {
  }

  lemma {:induction false} RotatedAlike(rules: seq<Tree>, below: nat, t: Tree)
    requires t.TSeq? || t.TChoice?
    ensures Alike(rules, below, t, Rotated(t))
    decreases t.p1
  {
    hide Alike;
    if SameOp(t.p1, t) {
      var x := Op(t, t.p1.p1, Op(t, t.p1.p2, t.p2));
      AlikeTurned(rules, below, t);
      RotatedAlike(rules, below, x);
      AlikeTrans(rules, below, t, x, Rotated(x));
    } else {
      AlikeSelf(rules, below, t);
    }
  }

  lemma AlikeOp(rules: seq<Tree>, below: nat, t: Tree, a: Tree, b: Tree)
    requires (t.TSeq? || t.TChoice?) && Alike(rules, below, t.p1, a) && Alike(rules, below, t.p2, b)
    ensures Alike(rules, below, t, Op(t, a, b))
  {
    var r := Op(t, a, b);
    assert t == Op(t, t.p1, t.p2);
    forall d: nat, f: bool ensures CheckAux(d, rules, r, f) == CheckAux(d, rules, t, f) {
      CheckOp(d, rules, t, t.p1, t.p2, f);
      CheckOp(d, rules, t, a, b, f);
    }
    forall d: nat ensures CheckLoops(d, rules, r) == CheckLoops(d, rules, t) {
    }
    forall marks: seq<bool> | |marks| == |rules| ensures FixedLen(rules, marks, r) == FixedLen(rules, marks, t) {
      LengthOp(rules, marks, t, t.p1, t.p2);
      LengthOp(rules, marks, t, a, b);
    }
  }

  lemma AlikeChild(rules: seq<Tree>, below: nat, t: Tree, p: Tree)
    requires t.TRep? || t.TNot? || t.TAnd? || t.TBehind? || t.TCapture?
    requires Alike(rules, below, t.p, p)
    ensures Alike(rules, below, t, WithChild(t, p))
  {
    hide CheckAux, CheckLoops, FixedLen;
    var r := WithChild(t, p);
    forall d: nat, f: bool ensures CheckAux(d, rules, r, f) == CheckAux(d, rules, t, f) {
      CheckChild(d, rules, t, p, f);
    }
    forall d: nat ensures CheckLoops(d, rules, r) == CheckLoops(d, rules, t) {
      LoopsChild(d, rules, t, p);
    }
    forall marks: seq<bool> | |marks| == |rules| ensures FixedLen(rules, marks, r) == FixedLen(rules, marks, t) {
      LengthChild(rules, marks, t, p);
    }
    assert Length(rules, p) == Length(rules, t.p);
  }

  lemma CheckChild(depth: nat, rules: seq<Tree>, t: Tree, p: Tree, nofail: bool)
    requires t.TRep? || t.TNot? || t.TAnd? || t.TBehind? || t.TCapture?
    requires CheckAux(depth, rules, p, nofail) == CheckAux(depth, rules, t.p, nofail)
    ensures CheckAux(depth, rules, WithChild(t, p), nofail) == CheckAux(depth, rules, t, nofail)
  {
  }

  lemma LoopsChild(depth: nat, rules: seq<Tree>, t: Tree, p: Tree)
    requires t.TRep? || t.TNot? || t.TAnd? || t.TBehind? || t.TCapture?
    requires CheckAux(depth, rules, p, false) == CheckAux(depth, rules, t.p, false)
    requires CheckLoops(depth, rules, p) == CheckLoops(depth, rules, t.p)
    ensures CheckLoops(depth, rules, WithChild(t, p)) == CheckLoops(depth, rules, t)
  {
    hide CheckAux;
  }

  lemma LengthChild(rules: seq<Tree>, marks: seq<bool>, t: Tree, p: Tree)
    requires t.TRep? || t.TNot? || t.TAnd? || t.TBehind? || t.TCapture?
    requires |marks| == |rules| && FixedLen(rules, marks, p) == FixedLen(rules, marks, t.p)
    ensures FixedLen(rules, marks, WithChild(t, p)) == FixedLen(rules, marks, t)
  {
  }

  function WithChild(t: Tree, p: Tree): Tree
    requires t.TRep? || t.TNot? || t.TAnd? || t.TBehind? || t.TCapture?
  {
    match t
    case TRep(_) => TRep(p)
    case TNot(_) => TNot(p)
    case TAnd(_) => TAnd(p)
    case TBehind(n, _) => TBehind(n, p)
    case TCapture(kind, key, _) => TCapture(kind, key, p)
  }

  // No check tells the fixed tree from the tree it was made from.
  lemma {:induction false} FixedAlike(rules: seq<Tree>, below: nat, t: Tree)
    ensures Alike(rules, below, t, Fixed(t))
    decreases Size(t)
  {
    hide Alike;
    if t.TSeq? || t.TChoice? {
      var r := Rotated(t);
      RotatedAlike(rules, below, t);
      FixedAlike(rules, below, r.p1);
      FixedAlike(rules, below, r.p2);
      AlikeOp(rules, below, r, Fixed(r.p1), Fixed(r.p2));
      AlikeTrans(rules, below, t, r, Fixed(t));
    } else if t.TRep? || t.TNot? || t.TAnd? || t.TBehind? || t.TCapture? {
      FixedAlike(rules, below, t.p);
      AlikeChild(rules, below, t, Fixed(t.p));
    } else {
      AlikeSelf(rules, below, t);
    }
  }

  lemma FixedAccepted(t: Tree)
    requires WellFormed([], t) && AcceptedPattern(true, Depths.Below(t), t)
    ensures WellFormed([], Fixed(t)) && AcceptedPattern(true, Depths.Below(Fixed(t)), Fixed(t))
  {
    hide CheckAux, CheckLoops, FixedLen, Accepted, WellFormed, CalledBy, Depths.Height, Fixed;
    FixedAlike([], Depths.Below(t), t);
  }

  // -------------------------------------------------------------------------
  // Matching
  // -------------------------------------------------------------------------

  // The position that an argument names: it counts from 1, or backwards from the
  // end if it is not positive.
  function Named(init: int, len: nat): int { if init > 0 then init - 1 else len + init }

  // `initposition`: that position, cut at the end and at the beginning of the
  // subject. No position in the subject is nearer to it.
  function InitPosition(init: int, len: nat): (i: nat)
    ensures i <= len
    ensures 0 <= Named(init, len) <= len ==> i == Named(init, len)
    ensures Named(init, len) > len ==> i == len
    ensures Named(init, len) < 0 ==> i == 0
  {
    if init > 0 then
      if init <= len then init - 1 else len
    else if -init <= len then len + init
    else 0
  }

  // What is reported is the outcome `o`.
  ghost predicate Reports(r: Matcher.MatchResult, o: Outcome) {
    if o.Matched? then r == Matcher.Success(o.end, o.caps) else o.NoMatch? && r.Failure?
  }

  // `t` means the outcome `o` at `i`: with enough fuel it is what `Eval` gives.
  ghost predicate Means(t: Tree, s: seq<Byte>, i: nat, o: Outcome)
    requires i <= |s|
  {
    !o.Diverged? && exists fuel: nat :: Eval(fuel, [], t, s, i) == o
  }

  // A pattern has one meaning at most.
  lemma OneMeaning(t: Tree, s: seq<Byte>, i: nat, a: Outcome, b: Outcome)
    requires i <= |s| && Means(t, s, i, a) && Means(t, s, i, b)
    ensures a == b
  {
    var x: nat :| Eval(x, [], t, s, i) == a;
    var y: nat :| Eval(y, [], t, s, i) == b;
    if x <= y { MoreFuel(x, y, [], t, s, i); } else { MoreFuel(y, x, [], t, s, i); }
  }

  // The run of the compiled code needs more stack than `max` allows.
  ghost predicate TooDeep(t: Tree, s: seq<Byte>, i: nat, max: nat) {
    exists n: nat :: DeepRun(Machine(Compile(Fixed(t)), s), Start(i), n, max)
  }

  // The run ends after `n` steps and is too deep on the way.
  ghost predicate DeepRun(m: Machine, start: State, n: nat, max: nat) {
    Final(Run(m, start, n)) && Matcher.Overflows(m, start, n, max)
  }

  // Nothing happens after the end.
  lemma DeepBefore(m: Machine, start: State, n: nat, k: nat, max: nat)
    requires DeepRun(m, start, k, max) && Final(Run(m, start, n))
    ensures Matcher.Overflows(m, start, n, max)
  {
    hide Run, Step, Matcher.Height;
    var j: nat :| j <= k && Matcher.Height(Matcher.StackOf(Run(m, start, j))) > Matcher.Limit(max);
    if j > n {
      RunAdds(m, start, n, j - n);
      FinalStays(m, Run(m, start, n), j - n);
      NoHeight(Run(m, start, j));
      assert false;
    }
  }

  lemma NoHeight(st: State)
    requires Final(st)
    ensures Matcher.Height(Matcher.StackOf(st)) == 0
  {
  }

  // The pattern, which passes the honest checks, is fixed in place, compiled and
  // run. The result is what the pattern means at the initial position, or the
  // stack-overflow error if and only if the run is too deep.
  method Match(a: array<Node>, ghost t: Tree, s: seq<Byte>, init: int, max: nat) returns (r: Matcher.MatchResult)
    requires a[..] == Flat(t) && WellFormed([], t) && AcceptedPattern(true, Depths.Below(t), t)
    modifies a
    ensures a[..] == Flat(Fixed(t))
    ensures var i := InitPosition(init, |s|);
            if r.StackOverflow? then TooDeep(t, s, i, max)
            else !TooDeep(t, s, i, max) && exists o :: Means(t, s, i, o) && Reports(r, o)
  {
    hide Fixed, Flat, WellFormed, AcceptedPattern, Compile, Run, Step, Eval, Matcher.Overflows;
    assert a[0..|Flat(t)|] == Flat(t);
    FinalFix(a, 0, t);
    assert a[..] == a[0..|Flat(t)|];
    var x := ReadTree(a, 0, Fixed(t));
    FixedAccepted(t);
    var code := Emit.CompilePattern(x);
    r := RunCode(code, t, s, InitPosition(init, |s|), max);
  }

  method RunCode(code: seq<Slot>, ghost t: Tree, s: seq<Byte>, i: nat, max: nat) returns (r: Matcher.MatchResult)
    requires i <= |s| && code == Compile(Fixed(t))
    requires WellFormed([], Fixed(t)) && AcceptedPattern(true, Depths.Below(Fixed(t)), Fixed(t))
    ensures if r.StackOverflow? then TooDeep(t, s, i, max)
            else !TooDeep(t, s, i, max) && exists o :: Means(t, s, i, o) && Reports(r, o)
  {
    hide Fixed, WellFormed, AcceptedPattern, Compile, Run, Step, Eval, Matcher.Overflows;
    ghost var fuel, n := CompileTotal(Fixed(t), s, i);
    ghost var o := Eval(fuel, [], t, s, i);
    FixedMeans(fuel, [], t, s, i);
    r := Matcher.Match(code, s, i, max, n);
    ghost var m := Machine(code, s);
    if r.StackOverflow? {
      assert DeepRun(m, Start(i), n, max);
    } else {
      forall k: nat ensures !DeepRun(m, Start(i), k, max) {
        if DeepRun(m, Start(i), k, max) { DeepBefore(m, Start(i), n, k, max); }
      }
      assert Means(t, s, i, o);
    }
  }
}
