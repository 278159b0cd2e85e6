// How deep the analyses of lpcode.c look does not matter.

module Depths {
  // In an accepted pattern the chain of calls they follow always ends, as it must
  // for the recursion of lpcode.c, which has no bound of its own.

  import opened PegSyntax
  import opened Analysis
  import opened CodeGen
  import opened Termination
  import opened CompilerCorrect

  // Looking at `t`, the analyses never come to the end of `depth`.
  ghost predicate Bounded(depth: nat, rules: seq<Tree>, t: Tree)
    decreases depth, t
  {
    match t
    case TCall(k) => depth > 0 && k < |rules| && Bounded(depth - 1, rules, rules[k])
    case TSeq(p1, p2) =>
      Bounded(depth, rules, p1) && (Nullable(depth, rules, p1) ==> Bounded(depth, rules, p2))
    case TChoice(p1, p2) => Bounded(depth, rules, p1) && Bounded(depth, rules, p2)
    case TRep(p) => Bounded(depth, rules, p)
    case TNot(p) => Bounded(depth, rules, p)
    case TAnd(p) => Bounded(depth, rules, p)
    case TCapture(_, _, p) => Bounded(depth, rules, p)
    case TGrammar(rs) => |rs| > 0 && Bounded(depth, rs, rs[0])
    case _ => true
  }

  lemma {:induction false} CheckStable(d: nat, e: nat, rules: seq<Tree>, t: Tree)
    requires Bounded(d, rules, t) && d <= e
    ensures Bounded(e, rules, t)
    ensures Nullable(e, rules, t) == Nullable(d, rules, t)
    ensures Nofail(e, rules, t) == Nofail(d, rules, t)
    decreases d, t
  {
    match t
    case TCall(k) => CheckStable(d - 1, e - 1, rules, rules[k]);
    case TSeq(p1, p2) =>
      CheckStable(d, e, rules, p1);
      if Nofail(d, rules, p1) { NofailIsNullable(d, rules, p1); }
      if Nullable(d, rules, p1) { CheckStable(d, e, rules, p2); }
    case TChoice(p1, p2) =>
      CheckStable(d, e, rules, p1);
      CheckStable(d, e, rules, p2);
    case TRep(p) => CheckStable(d, e, rules, p);
    case TNot(p) => CheckStable(d, e, rules, p);
    case TAnd(p) => CheckStable(d, e, rules, p);
    case TCapture(_, _, p) => CheckStable(d, e, rules, p);
    case TGrammar(rs) => CheckStable(d, e, rs, rs[0]);
    case _ =>
  }

  lemma {:induction false} FirstStable(d: nat, e: nat, rules: seq<Tree>, t: Tree, fl: Charset)
    requires Bounded(d, rules, t) && d <= e
    ensures GetFirst(e, rules, t, fl) == GetFirst(d, rules, t, fl)
    decreases d, t
  {
    match t
    case TCall(k) => FirstStable(d - 1, e - 1, rules, rules[k], fl);
    case TSeq(p1, p2) =>
      CheckStable(d, e, rules, p1);
      if Nullable(d, rules, p1) {
        FirstStable(d, e, rules, p2, fl);
        FirstStable(d, e, rules, p1, GetFirst(d, rules, p2, fl).cs);
      } else {
        FirstStable(d, e, rules, p1, AllBytes());
      }
    case TChoice(p1, p2) =>
      FirstStable(d, e, rules, p1, fl);
      FirstStable(d, e, rules, p2, fl);
    case TRep(p) => FirstStable(d, e, rules, p, fl);
    case TAnd(p) => FirstStable(d, e, rules, p, fl);
    case TCapture(_, _, p) => FirstStable(d, e, rules, p, fl);
    case TGrammar(rs) => FirstStable(d, e, rs, rs[0], fl);
    case _ =>
  }

  // Every part of a tree is bounded.
  ghost predicate AllBounded(b: nat, rules: seq<Tree>, t: Tree)
    decreases t
  {
    && Bounded(b, rules, t)
    && match t
       case TSeq(p1, p2) => AllBounded(b, rules, p1) && AllBounded(b, rules, p2)
       case TChoice(p1, p2) => AllBounded(b, rules, p1) && AllBounded(b, rules, p2)
       case TRep(p) => AllBounded(b, rules, p)
       case TNot(p) => AllBounded(b, rules, p)
       case TAnd(p) => AllBounded(b, rules, p)
       case TBehind(_, p) => AllBounded(b, rules, p)
       case TCapture(_, _, p) => AllBounded(b, rules, p)
       case TGrammar(rs) => forall k :: 0 <= k < |rs| ==> AllBounded(b, rs, rs[k])
       case _ => true
  }

  ghost predicate RulesBounded(b: nat, rules: seq<Tree>) {
    forall k :: 0 <= k < |rules| ==> AllBounded(b, rules, rules[k])
  }

  lemma {:induction false} HeadfailStable(b: nat, n: nat, d: nat, e: nat, rules: seq<Tree>, t: Tree)
    requires AllBounded(b, rules, t) && RulesBounded(b, rules) && Bounded(n, rules, t) && n + b <= d <= e
    ensures Headfail(e, rules, t) == Headfail(d, rules, t)
    decreases n, t
  {
    match t
    case TCall(k) => HeadfailStable(b, n - 1, d - 1, e - 1, rules, rules[k]);
    case TSeq(p1, p2) =>
      HeadfailStable(b, n, d, e, rules, p1);
      CheckStable(b, d, rules, p2);
      CheckStable(b, e, rules, p2);
    case TChoice(p1, p2) =>
      HeadfailStable(b, n, d, e, rules, p1);
      HeadfailStable(b, n, d, e, rules, p2);
    case TAnd(p) => HeadfailStable(b, n, d, e, rules, p);
    case TCapture(_, _, p) => HeadfailStable(b, n, d, e, rules, p);
    case TGrammar(rs) => HeadfailStable(b, n, d, e, rs, rs[0]);
    case _ =>
  }

  // What the code generator asks about a part of the tree.
  lemma AnswersStable(b: nat, d: nat, e: nat, rules: seq<Tree>, p: Tree, fl: Charset)
    requires AllBounded(b, rules, p) && RulesBounded(b, rules) && 2 * b <= d <= e
    ensures GetFirst(e, rules, p, fl) == GetFirst(d, rules, p, fl)
    ensures Headfail(e, rules, p) == Headfail(d, rules, p)
  {
    FirstStable(b, d, rules, p, fl);
    FirstStable(b, e, rules, p, fl);
    HeadfailStable(b, b, d, e, rules, p);
  }

  // The code of a tree is the same for every depth that is large enough.
  lemma {:induction false} CodeStable(b: nat, d: nat, e: nat, rules: seq<Tree>, t: Tree, opt: bool, tt: Test, fl: Charset)
    requires AllBounded(b, rules, t) && RulesBounded(b, rules) && 2 * b <= d <= e
    ensures Code(e, rules, t, opt, tt, fl) == Code(d, rules, t, opt, tt, fl)
    decreases t, 1, 0
  {
    hide GetFirst, Headfail, FixedLen, HasCaptures, RulesBounded, Bounded, Code, CodeChoice, CodeRep, CodeNot, CodeAnd,
         CodeCapture, CodeGrammar, CodeChar, CodeCharset;
    CodeShape(Scope(d, rules, []), t, opt, tt, fl);
    CodeShape(Scope(e, rules, []), t, opt, tt, fl);
    match t
    case TChoice(p1, p2) => ChoiceStable(b, d, e, rules, t, opt, fl);
    case TRep(p) => RepStable(b, d, e, rules, t, opt, fl);
    case TBehind(n, p) => CodeStable(b, d, e, rules, p, false, NoTest, AllBytes());
    case TNot(p) => NotStable(b, d, e, rules, t);
    case TAnd(p) =>
      CodeStable(b, d, e, rules, p, false, tt, AllBytes());
      AndStable(d, e, rules, p, tt);
    case TCapture(kind, key, p) =>
      CodeStable(b, d, e, rules, p, false, tt, fl);
      CaptureStable(d, e, rules, kind, key, p, tt, fl);
    case TGrammar(rs) => GrammarStable(b, d, e, rules, t);
    case TSeq(p1, p2) =>
      AnswersStable(b, d, e, rules, p2, fl);
      var fl1 := if NeedFollow(p1) then GetFirst(d, rules, p2, fl).cs else AllBytes();
      var tt2 := if Length(rules, p1) != 0 then NoTest else tt;
      CodeStable(b, d, e, rules, p1, false, tt, fl1);
      CodeStable(b, d, e, rules, p2, opt, tt2, fl);
    case _ =>
  }

  lemma {:induction false} NotStable(b: nat, d: nat, e: nat, rules: seq<Tree>, t: Tree)
    requires t.TNot? && AllBounded(b, rules, t) && RulesBounded(b, rules) && 2 * b <= d <= e
    ensures CodeNot(e, rules, t.p) == CodeNot(d, rules, t.p)
    decreases t, 0, 0
  {
    hide GetFirst, Headfail, RulesBounded, Bounded, Code, CodeTest;
    AnswersStable(b, d, e, rules, t.p, AllBytes());
    CodeStable(b, d, e, rules, t.p, false, NoTest, AllBytes());
  }

  lemma AndStable(d: nat, e: nat, rules: seq<Tree>, p: Tree, tt: Test)
    requires Code(e, rules, p, false, tt, AllBytes()) == Code(d, rules, p, false, tt, AllBytes())
    ensures CodeAnd(e, rules, p, tt) == CodeAnd(d, rules, p, tt)
  {
    hide Code, FixedLen, HasCaptures;
  }

  lemma CaptureStable(d: nat, e: nat, rules: seq<Tree>, kind: Kind, key: nat, p: Tree, tt: Test, fl: Charset)
    requires Code(e, rules, p, false, tt, fl) == Code(d, rules, p, false, tt, fl)
    ensures CodeCapture(e, rules, kind, key, p, tt, fl) == CodeCapture(d, rules, kind, key, p, tt, fl)
  {
    hide Code, FixedLen, HasCaptures;
  }

  lemma {:induction false} ChoiceStable(b: nat, d: nat, e: nat, rules: seq<Tree>, t: Tree, opt: bool, fl: Charset)
    requires t.TChoice? && AllBounded(b, rules, t) && RulesBounded(b, rules) && 2 * b <= d <= e
    ensures CodeChoice(e, rules, t.p1, t.p2, opt, fl) == CodeChoice(d, rules, t.p1, t.p2, opt, fl)
    decreases t, 0, 0
  {
    hide GetFirst, Headfail, RulesBounded, Bounded, Code, CodeTest, TestOf, CodeChoice;
    var TChoice(p1, p2) := t;
    AnswersStable(b, d, e, rules, p1, AllBytes());
    AnswersStable(b, d, e, rules, p2, fl);
    var f1 := GetFirst(d, rules, p1, AllBytes());
    CodeStable(b, d, e, rules, p1, false, TestOf(f1.cs), fl);
    CodeStable(b, d, e, rules, p1, true, NoTest, AllBytes());
    CodeStable(b, d, e, rules, p1, p2.TTrue?, if f1.empty then NoTest else TestOf(f1.cs), AllBytes());
    CodeStable(b, d, e, rules, p2, opt, NoTest, fl);
    SameChoice(d, e, rules, p1, p2, opt, fl);
  }

  // Same answers and same code of the parts.
  lemma SameChoice(d: nat, e: nat, rules: seq<Tree>, p1: Tree, p2: Tree, opt: bool, fl: Charset)
    requires GetFirst(e, rules, p1, AllBytes()) == GetFirst(d, rules, p1, AllBytes())
    requires GetFirst(e, rules, p2, fl) == GetFirst(d, rules, p2, fl) && Headfail(e, rules, p1) == Headfail(d, rules, p1)
    requires var f1 := GetFirst(d, rules, p1, AllBytes());
             var tt1 := if f1.empty then NoTest else TestOf(f1.cs);
             && Code(e, rules, p1, false, TestOf(f1.cs), fl) == Code(d, rules, p1, false, TestOf(f1.cs), fl)
             && Code(e, rules, p1, true, NoTest, AllBytes()) == Code(d, rules, p1, true, NoTest, AllBytes())
             && Code(e, rules, p1, p2.TTrue?, tt1, AllBytes()) == Code(d, rules, p1, p2.TTrue?, tt1, AllBytes())
    requires Code(e, rules, p2, opt, NoTest, fl) == Code(d, rules, p2, opt, NoTest, fl)
    ensures CodeChoice(e, rules, p1, p2, opt, fl) == CodeChoice(d, rules, p1, p2, opt, fl)
  {
    hide GetFirst, Headfail, Code, CodeTest, TestOf, TestSize;
  }

  lemma {:induction false} RepStable(b: nat, d: nat, e: nat, rules: seq<Tree>, t: Tree, opt: bool, fl: Charset)
    requires t.TRep? && AllBounded(b, rules, t) && RulesBounded(b, rules) && 2 * b <= d <= e
    ensures CodeRep(e, rules, t.p, opt, fl) == CodeRep(d, rules, t.p, opt, fl)
    decreases t, 0, 0
  {
    hide GetFirst, Headfail, RulesBounded, Bounded, Code, CodeTest, TestOf, CodeRep;
    AnswersStable(b, d, e, rules, t.p, AllBytes());
    var f := GetFirst(d, rules, t.p, AllBytes());
    CodeStable(b, d, e, rules, t.p, false, TestOf(f.cs), AllBytes());
    CodeStable(b, d, e, rules, t.p, false, NoTest, AllBytes());
    SameRep(d, e, rules, t.p, opt, fl);
  }

  lemma SameRep(d: nat, e: nat, rules: seq<Tree>, p: Tree, opt: bool, fl: Charset)
    requires GetFirst(e, rules, p, AllBytes()) == GetFirst(d, rules, p, AllBytes())
    requires Headfail(e, rules, p) == Headfail(d, rules, p)
    requires var f := GetFirst(d, rules, p, AllBytes());
             Code(e, rules, p, false, TestOf(f.cs), AllBytes()) == Code(d, rules, p, false, TestOf(f.cs), AllBytes())
    requires Code(e, rules, p, false, NoTest, AllBytes()) == Code(d, rules, p, false, NoTest, AllBytes())
    ensures CodeRep(e, rules, p, opt, fl) == CodeRep(d, rules, p, opt, fl)
  {
    hide GetFirst, Headfail, Code, CodeTest, TestOf, TestSize, ToCharset, Buffer;
  }

  lemma {:induction false} GrammarStable(b: nat, d: nat, e: nat, rules: seq<Tree>, t: Tree)
    requires t.TGrammar? && AllBounded(b, rules, t) && 2 * b <= d <= e
    ensures CodeGrammar(e, t.rules) == CodeGrammar(d, t.rules)
    decreases t, 0, 0
  {
    hide Bounded, Code;
    forall k | 0 <= k < |t.rules|
      ensures Code(e, t.rules, t.rules[k], false, NoTest, AllBytes())
           == Code(d, t.rules, t.rules[k], false, NoTest, AllBytes())
    {
      CodeStable(b, d, e, t.rules, t.rules[k], false, NoTest, AllBytes());
    }
    RulesStable(d, e, t.rules, 0, 0);
  }

  lemma {:induction false} RulesStable(d: nat, e: nat, rs: seq<Tree>, k: nat, base: nat)
    requires forall j :: 0 <= j < |rs| ==>
               Code(e, rs, rs[j], false, NoTest, AllBytes()) == Code(d, rs, rs[j], false, NoTest, AllBytes())
    ensures CodeRules(e, rs, k) == CodeRules(d, rs, k)
    ensures Positions(e, rs, k, base) == Positions(d, rs, k, base)
    decreases |rs| - k
  {
    hide Code;
    if k < |rs| { RulesStable(d, e, rs, k + 1, base + |Code(d, rs, rs[k], false, NoTest, AllBytes())| + 1); }
  }

  // -------------------------------------------------------------------------
  // Accepted patterns are bounded
  // -------------------------------------------------------------------------

  // How many grammars are nested inside one another.
  function Height(t: Tree): nat {
    match t
    case TSeq(p1, p2) => Max(Height(p1), Height(p2))
    case TChoice(p1, p2) => Max(Height(p1), Height(p2))
    case TRep(p) => Height(p)
    case TNot(p) => Height(p)
    case TAnd(p) => Height(p)
    case TBehind(_, p) => Height(p)
    case TCapture(_, _, p) => Height(p)
    case TGrammar(rs) => 1 + HeightAll(rs)
    case _ => 0
  }

  function HeightAll(ts: seq<Tree>): (h: nat)
    ensures forall k :: 0 <= k < |ts| ==> Height(ts[k]) <= h
  {
    if ts == [] then 0
    else
      assert forall k :: 0 < k < |ts| ==> ts[k] == ts[1..][k - 1];
      Max(Height(ts[0]), HeightAll(ts[1..]))
  }

  function Max(a: nat, b: nat): nat { if a > b then a else b }

  // The rules a tree may call are fit for matching and not too deep.
  ghost predicate CallsFit(h: nat, below: nat, rules: seq<Tree>, t: Tree) {
    CalledBy(t) == {} || (CalledBy(t) <= UsedRules(rules) && GrammarSafe(below, rules) && HeightAll(rules) <= h)
  }

  lemma {:induction false} LeftBounded(n: nat, h: nat, below: nat, rules: seq<Tree>, t: Tree)
    requires LeftCalls(n, below, rules, t) && Accepted(true, below, t) && CallsFit(h, below, rules, t)
    requires Height(t) <= h && MAXRULES * h <= below
    ensures Bounded(n + MAXRULES * h, rules, t)
    decreases h, n, t, 1
  {
    hide UsedRules, GrammarSafe;
    match t
    case TSeq(p1, p2) =>
      LeftBounded(n, h, below, rules, p1);
      CheckStable(n + MAXRULES * h, n + below, rules, p1);
      if Nullable(n + below, rules, p1) { LeftBounded(n, h, below, rules, p2); }
    case TChoice(p1, p2) =>
      LeftBounded(n, h, below, rules, p1);
      LeftBounded(n, h, below, rules, p2);
    case TRep(p) => LeftBounded(n, h, below, rules, p);
    case TNot(p) => LeftBounded(n, h, below, rules, p);
    case TAnd(p) => LeftBounded(n, h, below, rules, p);
    case TCapture(_, _, p) => LeftBounded(n, h, below, rules, p);
    case TCall(k) =>
      assert k in CalledBy(t);
      SafeRule(below, rules, k);
      LeftBounded(n - 1, h, below, rules, rules[k]);
    case TGrammar(rs) =>
      GrammarBounded(h, below, t);
      CheckStable(MAXRULES * h, n + MAXRULES * h, rs, rs[0]);
    case _ =>
  }

  lemma SafeRule(below: nat, rules: seq<Tree>, k: nat)
    requires GrammarSafe(below, rules) && k in UsedRules(rules)
    ensures k < |rules| && Accepted(true, below, rules[k]) && CalledBy(rules[k]) <= UsedRules(rules)
    ensures LeftCalls(MAXRULES, below, rules, rules[k])
  {
  }

  lemma {:induction false} GrammarBounded(h: nat, below: nat, t: Tree)
    requires t.TGrammar? && Accepted(true, below, t) && Height(t) <= h && MAXRULES * h <= below
    ensures |t.rules| > 0 && Bounded(MAXRULES * h, t.rules, t.rules[0])
    decreases h, 0, t, 0
  {
    hide UsedRules, GrammarSafe, Bounded;
    AcceptedGrammarSafe(below, t);
    assert 0 in UsedRules(t.rules);
    SafeRule(below, t.rules, 0);
    LeftBounded(MAXRULES, h - 1, below, t.rules, t.rules[0]);
  }

  // The bound that holds for every part of a pattern of height `h`.
  function PartBound(h: nat): nat { MAXRULES * (h + 1) + 1 }

  lemma {:induction false} PartsBounded(h: nat, below: nat, rules: seq<Tree>, t: Tree)
    requires Accepted(true, below, t) && CallsFit(h, below, rules, t)
    requires Height(t) <= h && MAXRULES * h <= below
    ensures AllBounded(PartBound(h), rules, t)
    decreases t
  {
    hide UsedRules, GrammarSafe, Bounded;
    LeftOneMore(h, below, rules, t);
    LeftBounded(MAXRULES + 1, h, below, rules, t);
    match t
    case TSeq(p1, p2) =>
      PartsBounded(h, below, rules, p1);
      PartsBounded(h, below, rules, p2);
    case TChoice(p1, p2) =>
      PartsBounded(h, below, rules, p1);
      PartsBounded(h, below, rules, p2);
    case TRep(p) => PartsBounded(h, below, rules, p);
    case TNot(p) => PartsBounded(h, below, rules, p);
    case TAnd(p) => PartsBounded(h, below, rules, p);
    case TBehind(_, p) => PartsBounded(h, below, rules, p);
    case TCapture(_, _, p) => PartsBounded(h, below, rules, p);
    case TGrammar(rs) =>
      AcceptedGrammarSafe(below, t);
      forall k | 0 <= k < |rs| ensures AllBounded(PartBound(h), rs, rs[k]) {
        PartsBounded(h, below, rs, rs[k]);
      }
    case _ =>
  }

  lemma LeftOneMore(h: nat, below: nat, rules: seq<Tree>, t: Tree)
    requires CallsFit(h, below, rules, t)
    ensures LeftCalls(MAXRULES + 1, below, rules, t)
  {
    if CalledBy(t) == {} {
      OneCallMore({}, MAXRULES, below, rules, t);
    } else {
      OneCallMore(UsedRules(rules), MAXRULES, below, rules, t);
    }
  }

  // How deep it is enough to look, and how deep inside sub-grammars.
  function Depth(t: Tree): nat { 2 * PartBound(Height(t)) }

  function Below(t: Tree): nat { MAXRULES * Height(t) }

  // An accepted pattern has one code, however deep the analyses look beyond
  // `Depth`: their recursion has come to an end by then.
  lemma DepthDoesNotMatter(t: Tree, depth: nat)
    requires AcceptedPattern(true, Below(t), t) && depth >= Depth(t)
    ensures Code(depth, [], t, false, NoTest, AllBytes()) == Code(Depth(t), [], t, false, NoTest, AllBytes())
  {
    PartsBounded(Height(t), Below(t), [], t);
    CodeStable(PartBound(Height(t)), Depth(t), depth, [], t, false, NoTest, AllBytes());
  }
}
