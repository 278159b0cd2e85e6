// The tree constructors of lptree.c, and what the trees mean.

module Trees {
  import opened PegSyntax
  import opened Analysis
  import opened Termination

  // -------------------------------------------------------------------------
  // Strings and numbers
  // -------------------------------------------------------------------------

  // `fillseq`: the trees `leaves` in sequence.
  function Chain(leaves: seq<Tree>): Tree
    requires leaves != []
  {
    if |leaves| == 1 then leaves[0] else TSeq(leaves[0], Chain(leaves[1..]))
  }

  function Chars(w: seq<Byte>): (r: seq<Tree>)
    ensures |r| == |w|
  {
    seq(|w|, k requires 0 <= k < |w| => TChar(w[k]))
  }

  function Anys(n: nat): (r: seq<Tree>)
    ensures |r| == n
  {
    seq(n, _ => TAny)
  }

  // A string as a pattern.
  function Literal(w: seq<Byte>): Tree {
    if w == [] then TTrue else Chain(Chars(w))
  }

  // A number as a pattern.
  function Number(n: int): Tree {
    if n == 0 then TTrue else if n > 0 then Chain(Anys(n)) else TNot(Chain(Anys(-n)))
  }

  // A string matches itself and nothing else.
  lemma {:induction false} LiteralMatches(fuel: nat, rules: seq<Tree>, w: seq<Byte>, s: seq<Byte>, i: nat)
    requires i <= |s|
    ensures Eval(fuel, rules, Literal(w), s, i) == if w <= s[i..] then Matched(i + |w|, []) else NoMatch
    decreases |w|
  {
    if w != [] {
      if i < |s| { assert s[i..] == [s[i]] + s[i + 1..]; }
      if |w| > 1 {
        assert Chars(w)[1..] == Chars(w[1..]);
        assert w == [w[0]] + w[1..];
        if i < |s| { LiteralMatches(fuel, rules, w[1..], s, i + 1); }
      }
    }
  }

  lemma {:induction false} AnysMatch(fuel: nat, rules: seq<Tree>, n: nat, s: seq<Byte>, i: nat)
    requires i <= |s| && n > 0
    ensures Eval(fuel, rules, Chain(Anys(n)), s, i) == if i + n <= |s| then Matched(i + n, []) else NoMatch
    decreases n
  {
    if n > 1 {
      assert Anys(n)[1..] == Anys(n - 1);
      if i < |s| { AnysMatch(fuel, rules, n - 1, s, i + 1); }
    }
  }

  // `n` matches exactly `n` characters, `-n` only where fewer are left.
  lemma NumberMatches(fuel: nat, rules: seq<Tree>, n: int, s: seq<Byte>, i: nat)
    requires i <= |s|
    ensures n >= 0 ==> Eval(fuel, rules, Number(n), s, i) == if i + n <= |s| then Matched(i + n, []) else NoMatch
    ensures n < 0 ==> Eval(fuel, rules, Number(n), s, i) == if |s| - i < -n then Matched(i, []) else NoMatch
  {
    if n > 0 { AnysMatch(fuel, rules, n, s, i); }
    if n < 0 { AnysMatch(fuel, rules, -n, s, i); }
  }

  // -------------------------------------------------------------------------
  // Sequences, choices, differences
  // -------------------------------------------------------------------------

  // `lp_seq`
  function Sequence(t1: Tree, t2: Tree): Tree {
    if t1.TFalse? || t2.TTrue? then t1
    else if t1.TTrue? then t2
    else TSeq(t1, t2)
  }

  lemma SequenceMeans(fuel: nat, rules: seq<Tree>, t1: Tree, t2: Tree, s: seq<Byte>, i: nat)
    requires i <= |s|
    ensures Eval(fuel, rules, Sequence(t1, t2), s, i) == Eval(fuel, rules, TSeq(t1, t2), s, i)
  {
    var r := Eval(fuel, rules, t1, s, i);
    if r.Matched? { assert r.caps + [] == r.caps; }
    if t1.TTrue? && Eval(fuel, rules, t2, s, i).Matched? {
      var c := Eval(fuel, rules, t2, s, i).caps;
      assert [] + c == c;
    }
  }

  // `lp_choice`. Calls are still open here, but for those of finished grammars inside,
  // which `nofail` follows, `depth` of them at most.
  function Choice(depth: nat, t1: Tree, t2: Tree): Tree {
    if ToCharset(t1).Some? && ToCharset(t2).Some? then TSet(ToCharset(t1).value + ToCharset(t2).value)
    else if Nofail(depth, [], t1) || t2.TFalse? then t1
    else if t1.TFalse? then t2
    else TChoice(t1, t2)
  }

  lemma ChoiceMeans(depth: nat, fuel: nat, rules: seq<Tree>, t1: Tree, t2: Tree, s: seq<Byte>, i: nat)
    requires i <= |s|
    ensures Eval(fuel, rules, Choice(depth, t1, t2), s, i) == Eval(fuel, rules, TChoice(t1, t2), s, i)
  {
    if ToCharset(t1).Some? && ToCharset(t2).Some? {
      if i < |s| { assert s[i] in AllBytes(); }
    } else if Nofail(depth, [], t1) {
      NofailAnywhere(depth, rules, t1);
      NofailSound(depth, fuel, rules, t1, s, i);
    }
  }

  // What holds while calls are open holds with any rules.
  lemma {:induction false} NofailAnywhere(depth: nat, rules: seq<Tree>, t: Tree)
    requires Nofail(depth, [], t)
    ensures Nofail(depth, rules, t)
    decreases t
  {
    match t
    case TAnd(p) => NofailAnywhere(depth, rules, p);
    case TSeq(p1, p2) =>
      NofailAnywhere(depth, rules, p1);
      NofailAnywhere(depth, rules, p2);
    case TChoice(p1, p2) =>
      if Nofail(depth, [], p2) {
        NofailAnywhere(depth, rules, p2);
      } else {
        NofailAnywhere(depth, rules, p1);
      }
    case TCapture(_, _, p) => NofailAnywhere(depth, rules, p);
    case _ =>
  }

  // `lp_sub`
  function Difference(t1: Tree, t2: Tree): Tree {
    if ToCharset(t1).Some? && ToCharset(t2).Some? then TSet(ToCharset(t1).value - ToCharset(t2).value)
    else TSeq(TNot(t2), t1)
  }

  // The difference matches what `t1` does, where `t2` does not match.
  lemma DifferenceMeans(fuel: nat, rules: seq<Tree>, t1: Tree, t2: Tree, s: seq<Byte>, i: nat)
    requires i <= |s|
    ensures var r2 := Eval(fuel, rules, t2, s, i);
            Eval(fuel, rules, Difference(t1, t2), s, i) ==
            if r2.NoMatch? then Eval(fuel, rules, t1, s, i) else if r2.Matched? then NoMatch else Diverged
  {
    if ToCharset(t1).Some? && ToCharset(t2).Some? {
      if i < |s| { assert s[i] in AllBytes(); }
    } else {
      var r1 := Eval(fuel, rules, t1, s, i);
      if r1.Matched? { assert [] + r1.caps == r1.caps; }
    }
  }

  // -------------------------------------------------------------------------
  // Repetitions
  // -------------------------------------------------------------------------

  // What `lp_star` makes with a count that is not negative.
  function AtLeast(t: Tree, n: nat): Tree {
    if n == 0 then TRep(t) else TSeq(t, AtLeast(t, n - 1))
  }

  // `nullable` while the pattern is built: an open call counts as not nullable.
  predicate NullableSoFar(depth: nat, t: Tree) {
    match t
    case TSeq(p1, p2) => NullableSoFar(depth, p1) && NullableSoFar(depth, p2)
    case TChoice(p1, p2) => NullableSoFar(depth, p2) || NullableSoFar(depth, p1)
    case TCapture(_, _, p) => NullableSoFar(depth, p)
    case TCall(_) => false
    case _ => Nullable(depth, [], t)
  }

  // `lp_star` with a count that is not negative, or its error that the body may
  // accept the empty string.
  function Star(depth: nat, t: Tree, n: nat): Option<Tree> {
    if NullableSoFar(depth, t) then None else Some(AtLeast(t, n))
  }

  lemma {:induction false} NullableAnywhere(depth: nat, rules: seq<Tree>, t: Tree)
    ensures NullableSoFar(depth, t) ==> Nullable(depth, rules, t)
    ensures CalledBy(t) == {} ==> NullableSoFar(depth, t) == Nullable(depth, rules, t)
    decreases t
  {
    match t
    case TSeq(p1, p2) =>
      NullableAnywhere(depth, rules, p1);
      NullableAnywhere(depth, rules, p2);
    case TChoice(p1, p2) =>
      NullableAnywhere(depth, rules, p1);
      NullableAnywhere(depth, rules, p2);
    case TCapture(_, _, p) => NullableAnywhere(depth, rules, p);
    case _ =>
  }

  // The error is never raised for a pattern that `checkloops` would let through; and
  // unless the body has open calls, which are checked again with their grammar, a
  // repetition that is made adds no loop for `checkloops` to reject.
  lemma {:induction false} StarChecksLoops(depth: nat, rules: seq<Tree>, t: Tree, n: nat)
    ensures Star(depth, t, n).None? ==> CheckLoops(depth, rules, AtLeast(t, n))
    ensures Star(depth, t, n).Some? && CalledBy(t) == {} ==>
              CheckLoops(depth, rules, Star(depth, t, n).value) == CheckLoops(depth, rules, t)
    decreases n
  {
    hide Nullable, NullableSoFar, CalledBy;
    NullableAnywhere(depth, rules, t);
    if n > 0 { StarChecksLoops(depth, rules, t, n - 1); }
  }

  // `lp_star` with a negative count.
  function AtMost(t: Tree, n: nat): Tree
    requires n > 0
  {
    TChoice(if n == 1 then t else TSeq(t, AtMost(t, n - 1)), TTrue)
  }

  // `t` matched again and again, up to `n` times, for as long as it matches.
  function UpTo(fuel: nat, rules: seq<Tree>, t: Tree, n: nat, s: seq<Byte>, i: nat): (r: Outcome)
    requires i <= |s|
    ensures !r.NoMatch?
    decreases n
  {
    if n == 0 then Matched(i, [])
    else
      match Eval(fuel, rules, t, s, i)
      case Diverged => Diverged
      case NoMatch => Matched(i, [])
      case Matched(j, c1) =>
        var r := UpTo(fuel, rules, t, n - 1, s, j);
        if r.Matched? then Matched(r.end, c1 + r.caps) else Diverged
  }

  lemma {:induction false} AtMostMeans(fuel: nat, rules: seq<Tree>, t: Tree, n: nat, s: seq<Byte>, i: nat)
    requires i <= |s| && n > 0
    ensures Eval(fuel, rules, AtMost(t, n), s, i) == UpTo(fuel, rules, t, n, s, i)
    decreases n
  {
    hide Eval;
    var r := Eval(fuel, rules, t, s, i);
    AtMostStep(fuel, rules, t, n, s, i);
    if r.Matched? {
      if n > 1 {
        AtMostMeans(fuel, rules, t, n - 1, s, r.end);
      } else {
        assert r.caps + [] == r.caps;
      }
    }
  }

  lemma AtMostStep(fuel: nat, rules: seq<Tree>, t: Tree, n: nat, s: seq<Byte>, i: nat)
    requires i <= |s| && n > 0
    ensures var r := Eval(fuel, rules, t, s, i);
            var e := Eval(fuel, rules, AtMost(t, n), s, i);
            && (r.Diverged? ==> e.Diverged?)
            && (r.NoMatch? ==> e == Matched(i, []))
            && (r.Matched? && n == 1 ==> e == r)
            && (r.Matched? && n > 1 ==>
                  var m := Eval(fuel, rules, AtMost(t, n - 1), s, r.end);
                  !m.NoMatch? ==> e == Prefixed(r.caps, m))
  {
    if n > 1 { assert AtMost(t, n) == TChoice(TSeq(t, AtMost(t, n - 1)), TTrue); }
  }

  // The outcome `r`, and then `t`.
  function Then(fuel: nat, rules: seq<Tree>, r: Outcome, t: Tree, s: seq<Byte>): (o: Outcome)
    requires r.Matched? ==> r.end <= |s|
    ensures o.Matched? ==> o.end <= |s|
  {
    match r
    case Matched(j, c1) => Prefixed(c1, Eval(fuel, rules, t, s, j))
    case other => other
  }

  function Prefixed(c: seq<Capture>, r: Outcome): Outcome {
    match r
    case Matched(k, c2) => Matched(k, c + c2)
    case other => other
  }

  lemma PrefixedTwice(c: seq<Capture>, d: seq<Capture>, r: Outcome)
    ensures Prefixed(c, Prefixed(d, r)) == Prefixed(c + d, r)
    ensures Prefixed([], r) == r
  {
    if r.Matched? {
      assert c + (d + r.caps) == (c + d) + r.caps;
      assert [] + r.caps == r.caps;
    }
  }

  lemma ThenPrefixed(fuel: nat, rules: seq<Tree>, c: seq<Capture>, r: Outcome, t: Tree, s: seq<Byte>)
    requires r.Matched? ==> r.end <= |s|
    ensures Then(fuel, rules, Prefixed(c, r), t, s) == Prefixed(c, Then(fuel, rules, r, t, s))
  {
    hide Eval;
    if r.Matched? { PrefixedTwice(c, r.caps, Eval(fuel, rules, t, s, r.end)); }
  }

  // `t` matched exactly `n` times.
  function Times(fuel: nat, rules: seq<Tree>, t: Tree, n: nat, s: seq<Byte>, i: nat): (r: Outcome)
    requires i <= |s|
    ensures r.Matched? ==> r.end <= |s|
    decreases n
  {
    if n == 0 then Matched(i, []) else Then(fuel, rules, Times(fuel, rules, t, n - 1, s, i), t, s)
  }

  // At least `n`: exactly `n` matches and then any number of them.
  lemma {:induction false} AtLeastMeans(fuel: nat, rules: seq<Tree>, t: Tree, n: nat, s: seq<Byte>, i: nat)
    requires i <= |s|
    ensures Eval(fuel, rules, AtLeast(t, n), s, i)
         == Then(fuel, rules, Times(fuel, rules, t, n, s, i), TRep(t), s)
    decreases n
  {
    hide Eval;
    if n == 0 {
      PrefixedTwice([], [], Eval(fuel, rules, TRep(t), s, i));
    } else {
      TimesFromFront(fuel, rules, t, n, s, i);
      AtLeastStep(fuel, rules, t, n, s, i);
      var r := Eval(fuel, rules, t, s, i);
      if r.Matched? {
        AtLeastMeans(fuel, rules, t, n - 1, s, r.end);
        ThenPrefixed(fuel, rules, r.caps, Times(fuel, rules, t, n - 1, s, r.end), TRep(t), s);
      }
    }
  }

  lemma AtLeastStep(fuel: nat, rules: seq<Tree>, t: Tree, n: nat, s: seq<Byte>, i: nat)
    requires i <= |s| && n > 0
    ensures Eval(fuel, rules, AtLeast(t, n), s, i)
         == Then(fuel, rules, Eval(fuel, rules, t, s, i), AtLeast(t, n - 1), s)
  {
  }

  lemma {:induction false} TimesFromFront(fuel: nat, rules: seq<Tree>, t: Tree, n: nat, s: seq<Byte>, i: nat)
    requires i <= |s| && n > 0
    ensures var r := Eval(fuel, rules, t, s, i);
            Times(fuel, rules, t, n, s, i) ==
            if r.Matched? then Prefixed(r.caps, Times(fuel, rules, t, n - 1, s, r.end)) else r
    decreases n
  {
    hide Eval;
    var r := Eval(fuel, rules, t, s, i);
    if n == 1 {
      assert Times(fuel, rules, t, 0, s, i) == Matched(i, []);
      PrefixedTwice([], [], r);
      if r.Matched? { assert r.caps + [] == r.caps; }
    } else {
      TimesFromFront(fuel, rules, t, n - 1, s, i);
      if r.Matched? { ThenPrefixed(fuel, rules, r.caps, Times(fuel, rules, t, n - 2, s, r.end), t, s); }
    }
  }

  // -------------------------------------------------------------------------
  // Associativity
  // -------------------------------------------------------------------------

  predicate SameOp(a: Tree, b: Tree) { (a.TSeq? && b.TSeq?) || (a.TChoice? && b.TChoice?) }

  function Op(t: Tree, a: Tree, b: Tree): Tree { if t.TSeq? then TSeq(a, b) else TChoice(a, b) }

  // `correctassociativity`
  function Rotated(t: Tree): (r: Tree)
    requires t.TSeq? || t.TChoice?
    ensures SameOp(r, t) && !SameOp(r.p1, r)
    ensures Size(r) == Size(t)
    decreases t.p1
  {
    if SameOp(t.p1, t) then
      var x := Op(t, t.p1.p1, Op(t, t.p1.p2, t.p2));
      assert Size(Op(t, t.p1.p2, t.p2)) == 1 + Size(t.p1.p2) + Size(t.p2);
      assert Size(t) == 1 + Size(t.p1) + Size(t.p2);
      Rotated(x)
    else t
  }

  // `finalfix`, as far as the shape of the tree goes. Sub-grammars have been
  // fixed before.
  function Fixed(t: Tree): Tree
    decreases Size(t)
  {
    match t
    case TSeq(_, _) => var r := Rotated(t); TSeq(Fixed(r.p1), Fixed(r.p2))
    case TChoice(_, _) => var r := Rotated(t); TChoice(Fixed(r.p1), Fixed(r.p2))
    case TRep(p) => TRep(Fixed(p))
    case TNot(p) => TNot(Fixed(p))
    case TAnd(p) => TAnd(Fixed(p))
    case TBehind(n, p) => TBehind(n, Fixed(p))
    case TCapture(kind, key, p) => TCapture(kind, key, Fixed(p))
    case _ => t
  }

  // No sequence has a sequence as its first part, and no choice a choice.
  predicate LeansRight(t: Tree) {
    match t
    case TSeq(p1, p2) => !p1.TSeq? && LeansRight(p1) && LeansRight(p2)
    case TChoice(p1, p2) => !p1.TChoice? && LeansRight(p1) && LeansRight(p2)
    case TRep(p) => LeansRight(p)
    case TNot(p) => LeansRight(p)
    case TAnd(p) => LeansRight(p)
    case TBehind(_, p) => LeansRight(p)
    case TCapture(_, _, p) => LeansRight(p)
    case _ => true
  }

  lemma {:induction false} FixedLeansRight(t: Tree)
    ensures LeansRight(Fixed(t))
    ensures Fixed(t).TSeq? <==> t.TSeq?
    ensures Fixed(t).TChoice? <==> t.TChoice?
    decreases Size(t)
  {
    match t
    case TSeq(_, _) => var r := Rotated(t); FixedLeansRight(r.p1); FixedLeansRight(r.p2);
    case TChoice(_, _) => var r := Rotated(t); FixedLeansRight(r.p1); FixedLeansRight(r.p2);
    case TRep(p) => FixedLeansRight(p);
    case TNot(p) => FixedLeansRight(p);
    case TAnd(p) => FixedLeansRight(p);
    case TBehind(_, p) => FixedLeansRight(p);
    case TCapture(_, _, p) => FixedLeansRight(p);
    case _ =>
  }

  lemma RotateOnce(fuel: nat, rules: seq<Tree>, t: Tree, s: seq<Byte>, i: nat)
    requires i <= |s| && (t.TSeq? || t.TChoice?) && SameOp(t.p1, t)
    ensures Eval(fuel, rules, Op(t, t.p1.p1, Op(t, t.p1.p2, t.p2)), s, i) == Eval(fuel, rules, t, s, i)
  {
    var a, b, c := t.p1.p1, t.p1.p2, t.p2;
    var ra := Eval(fuel, rules, a, s, i);
    if t.TSeq? && ra.Matched? {
      var rb := Eval(fuel, rules, b, s, ra.end);
      if rb.Matched? {
        var rc := Eval(fuel, rules, c, s, rb.end);
        if rc.Matched? { assert (ra.caps + rb.caps) + rc.caps == ra.caps + (rb.caps + rc.caps); }
      }
    }
  }

  lemma {:induction false} RotatedMeans(fuel: nat, rules: seq<Tree>, t: Tree, s: seq<Byte>, i: nat)
    requires i <= |s| && (t.TSeq? || t.TChoice?)
    ensures Eval(fuel, rules, Rotated(t), s, i) == Eval(fuel, rules, t, s, i)
    decreases t.p1
  {
    hide Eval;
    if SameOp(t.p1, t) {
      RotateOnce(fuel, rules, t, s, i);
      RotatedMeans(fuel, rules, Op(t, t.p1.p1, Op(t, t.p1.p2, t.p2)), s, i);
    }
  }

  // Fixing the associativity changes no match.
  lemma {:induction false} FixedMeans(fuel: nat, rules: seq<Tree>, t: Tree, s: seq<Byte>, i: nat)
    requires i <= |s|
    ensures Eval(fuel, rules, Fixed(t), s, i) == Eval(fuel, rules, t, s, i)
    decreases fuel, Size(t)
  {
    match t
    case TSeq(_, _) =>
      var r := Rotated(t);
      RotatedMeans(fuel, rules, t, s, i);
      FixedMeans(fuel, rules, r.p1, s, i);
      var o := Eval(fuel, rules, r.p1, s, i);
      if o.Matched? { FixedMeans(fuel, rules, r.p2, s, o.end); }
    case TChoice(_, _) =>
      var r := Rotated(t);
      RotatedMeans(fuel, rules, t, s, i);
      FixedMeans(fuel, rules, r.p1, s, i);
      FixedMeans(fuel, rules, r.p2, s, i);
    case TRep(p) =>
      FixedMeans(fuel, rules, p, s, i);
      var o := Eval(fuel, rules, p, s, i);
      if o.Matched? && fuel > 0 { FixedMeans(fuel - 1, rules, t, s, o.end); }
    case TNot(p) => FixedMeans(fuel, rules, p, s, i);
    case TAnd(p) => FixedMeans(fuel, rules, p, s, i);
    case TBehind(n, p) => if n <= i { FixedMeans(fuel, rules, p, s, i - n); }
    case TCapture(_, _, p) => FixedMeans(fuel, rules, p, s, i);
    case _ =>
  }
}
