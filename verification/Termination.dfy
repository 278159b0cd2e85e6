// The checks of a grammar.

module Termination {
  // `verifyrule` and `checkloops`, and why a pattern that passes them always comes
  // to an end.

  import opened PegSyntax
  import opened Analysis

  const MAXRULES := 250

  datatype Verdict = Rejected | Accept(nullable: bool)

  // `verifyrule`. `below` is how many calls the analyses may follow inside a
  // sub-grammar. With `honest` false this is the source: for a sub-grammar it
  // answers whether that grammar is nullable, whatever `nb` says. With `honest`
  // true the answer takes `nb` into account, as for every other pattern.
  function VerifyRule(honest: bool, below: nat, rules: seq<Tree>, t: Tree, npassed: nat, nb: bool): Verdict
    requires npassed <= MAXRULES
    decreases MAXRULES - npassed, t
  {
    match t
    case TChar(_) => Accept(nb)
    case TSet(_) => Accept(nb)
    case TAny => Accept(nb)
    case TFalse => Accept(nb)
    case TTrue => Accept(true)
    case TBehind(_, _) => Accept(true)
    case TNot(p) => VerifyRule(honest, below, rules, p, npassed, true)
    case TAnd(p) => VerifyRule(honest, below, rules, p, npassed, true)
    case TRep(p) => VerifyRule(honest, below, rules, p, npassed, true)
    case TCapture(_, _, p) => VerifyRule(honest, below, rules, p, npassed, nb)
    case TCall(k) =>
      if npassed == MAXRULES || k >= |rules| then Rejected
      else VerifyRule(honest, below, rules, rules[k], npassed + 1, nb)
    case TSeq(p1, p2) =>
      (match VerifyRule(honest, below, rules, p1, npassed, false)
       case Rejected => Rejected
       case Accept(false) => Accept(nb)
       case Accept(true) => VerifyRule(honest, below, rules, p2, npassed, nb))
    case TChoice(p1, p2) =>
      (match VerifyRule(honest, below, rules, p1, npassed, nb)
       case Rejected => Rejected
       case Accept(nb1) => VerifyRule(honest, below, rules, p2, npassed, nb1))
    case TGrammar(_) =>
      Accept((honest && nb) || Nullable(MAXRULES - npassed + below, rules, t))
  }

  // `checkloops`
  predicate CheckLoops(depth: nat, rules: seq<Tree>, t: Tree) {
    match t
    case TRep(p) => Nullable(depth, rules, p) || CheckLoops(depth, rules, p)
    case TSeq(p1, p2) => CheckLoops(depth, rules, p1) || CheckLoops(depth, rules, p2)
    case TChoice(p1, p2) => CheckLoops(depth, rules, p1) || CheckLoops(depth, rules, p2)
    case TNot(p) => CheckLoops(depth, rules, p)
    case TAnd(p) => CheckLoops(depth, rules, p)
    case TBehind(_, p) => CheckLoops(depth, rules, p)
    case TCapture(_, _, p) => CheckLoops(depth, rules, p)
    case _ => false
  }

  // A tree and all that is below it, sub-grammars aside.
  function Parts(t: Tree): set<Tree> {
    match t
    case TRep(p) => {t} + Parts(p)
    case TSeq(p1, p2) => {t} + Parts(p1) + Parts(p2)
    case TChoice(p1, p2) => {t} + Parts(p1) + Parts(p2)
    case TNot(p) => {t} + Parts(p)
    case TAnd(p) => {t} + Parts(p)
    case TBehind(_, p) => {t} + Parts(p)
    case TCapture(_, _, p) => {t} + Parts(p)
    case _ => {t}
  }

  // A repetition whose body may match without consuming.
  predicate EmptyLoop(depth: nat, rules: seq<Tree>, t: Tree) { t.TRep? && Nullable(depth, rules, t.p) }

  // `checkloops` finds an empty loop if and only if there is one.
  lemma {:induction false} CheckLoopsExact(depth: nat, rules: seq<Tree>, t: Tree)
    ensures CheckLoops(depth, rules, t) <==> exists r :: r in Parts(t) && EmptyLoop(depth, rules, r)
    decreases t
  {
    hide Nullable;
    match t
    case TRep(p) =>
      CheckLoopsExact(depth, rules, p);
      if Nullable(depth, rules, p) { assert t in Parts(t) && EmptyLoop(depth, rules, t); }
    case TSeq(p1, p2) =>
      CheckLoopsExact(depth, rules, p1);
      CheckLoopsExact(depth, rules, p2);
    case TChoice(p1, p2) =>
      CheckLoopsExact(depth, rules, p1);
      CheckLoopsExact(depth, rules, p2);
    case TNot(p) => CheckLoopsExact(depth, rules, p);
    case TAnd(p) => CheckLoopsExact(depth, rules, p);
    case TBehind(_, p) => CheckLoopsExact(depth, rules, p);
    case TCapture(_, _, p) => CheckLoopsExact(depth, rules, p);
    case _ =>
  }

  // -------------------------------------------------------------------------
  // What `verifyrule` decides
  // -------------------------------------------------------------------------

  // Every way of calling rules from `t` without consuming makes at most `n`
  // calls in a row.
  ghost predicate LeftCalls(n: nat, below: nat, rules: seq<Tree>, t: Tree)
    decreases n, t
  {
    match t
    case TCall(k) => n > 0 && k < |rules| && LeftCalls(n - 1, below, rules, rules[k])
    case TSeq(p1, p2) =>
      LeftCalls(n, below, rules, p1) && (Nullable(n + below, rules, p1) ==> LeftCalls(n, below, rules, p2))
    case TChoice(p1, p2) => LeftCalls(n, below, rules, p1) && LeftCalls(n, below, rules, p2)
    case TRep(p) => LeftCalls(n, below, rules, p)
    case TNot(p) => LeftCalls(n, below, rules, p)
    case TAnd(p) => LeftCalls(n, below, rules, p)
    case TCapture(_, _, p) => LeftCalls(n, below, rules, p)
    case _ => true
  }

  // The honest check accepts a rule exactly when the calls it makes without
  // consuming are bounded, and its answer is then whether the rule is nullable.
  lemma {:induction false} VerifyExact(below: nat, rules: seq<Tree>, t: Tree, npassed: nat, nb: bool)
    requires npassed <= MAXRULES
    ensures var v := VerifyRule(true, below, rules, t, npassed, nb);
            var left := MAXRULES - npassed;
            && (v.Accept? <==> LeftCalls(left, below, rules, t))
            && (v.Accept? ==> v.nullable == (nb || Nullable(left + below, rules, t)))
    decreases MAXRULES - npassed, t
  {
    match t
    case TNot(p) => VerifyExact(below, rules, p, npassed, true);
    case TAnd(p) => VerifyExact(below, rules, p, npassed, true);
    case TRep(p) => VerifyExact(below, rules, p, npassed, true);
    case TCapture(_, _, p) => VerifyExact(below, rules, p, npassed, nb);
    case TCall(k) =>
      if npassed < MAXRULES && k < |rules| { VerifyExact(below, rules, rules[k], npassed + 1, nb); }
    case TSeq(p1, p2) =>
      VerifyExact(below, rules, p1, npassed, false);
      VerifyExact(below, rules, p2, npassed, nb);
    case TChoice(p1, p2) =>
      VerifyExact(below, rules, p1, npassed, nb);
      VerifyExact(below, rules, p2, npassed, true);
      VerifyExact(below, rules, p2, npassed, false);
    case _ =>
  }

  // Every sub-grammar that the source looks at with `nb` set is nullable.
  predicate FairToGrammars(below: nat, rules: seq<Tree>, t: Tree, npassed: nat, nb: bool)
    requires npassed <= MAXRULES
    decreases MAXRULES - npassed, t
  {
    match t
    case TNot(p) => FairToGrammars(below, rules, p, npassed, true)
    case TAnd(p) => FairToGrammars(below, rules, p, npassed, true)
    case TRep(p) => FairToGrammars(below, rules, p, npassed, true)
    case TCapture(_, _, p) => FairToGrammars(below, rules, p, npassed, nb)
    case TCall(k) =>
      npassed < MAXRULES && k < |rules| ==> FairToGrammars(below, rules, rules[k], npassed + 1, nb)
    case TSeq(p1, p2) =>
      && FairToGrammars(below, rules, p1, npassed, false)
      && (VerifyRule(false, below, rules, p1, npassed, false) == Accept(true) ==>
            FairToGrammars(below, rules, p2, npassed, nb))
    case TChoice(p1, p2) =>
      && FairToGrammars(below, rules, p1, npassed, nb)
      && (var v := VerifyRule(false, below, rules, p1, npassed, nb);
          v.Accept? ==> FairToGrammars(below, rules, p2, npassed, v.nullable))
    case TGrammar(_) => nb ==> Nullable(MAXRULES - npassed + below, rules, t)
    case _ => true
  }

  // On fair rules the check of the source is the honest one.
  lemma {:induction false} FairIsHonest(below: nat, rules: seq<Tree>, t: Tree, npassed: nat, nb: bool)
    requires npassed <= MAXRULES && FairToGrammars(below, rules, t, npassed, nb)
    ensures VerifyRule(false, below, rules, t, npassed, nb) == VerifyRule(true, below, rules, t, npassed, nb)
    decreases MAXRULES - npassed, t
  {
    match t
    case TNot(p) => FairIsHonest(below, rules, p, npassed, true);
    case TAnd(p) => FairIsHonest(below, rules, p, npassed, true);
    case TRep(p) => FairIsHonest(below, rules, p, npassed, true);
    case TCapture(_, _, p) => FairIsHonest(below, rules, p, npassed, nb);
    case TCall(k) =>
      if npassed < MAXRULES && k < |rules| { FairIsHonest(below, rules, rules[k], npassed + 1, nb); }
    case TSeq(p1, p2) =>
      FairIsHonest(below, rules, p1, npassed, false);
      if VerifyRule(false, below, rules, p1, npassed, false) == Accept(true) {
        FairIsHonest(below, rules, p2, npassed, nb);
      }
    case TChoice(p1, p2) =>
      FairIsHonest(below, rules, p1, npassed, nb);
      var v := VerifyRule(false, below, rules, p1, npassed, nb);
      if v.Accept? { FairIsHonest(below, rules, p2, npassed, v.nullable); }
    case _ =>
  }

  // -------------------------------------------------------------------------
  // Accepted patterns
  // -------------------------------------------------------------------------

  // The rules a tree calls, sub-grammars aside: those have rules of their own.
  function CalledBy(t: Tree): set<nat> {
    match t
    case TCall(k) => {k}
    case TRep(p) => CalledBy(p)
    case TSeq(p1, p2) => CalledBy(p1) + CalledBy(p2)
    case TChoice(p1, p2) => CalledBy(p1) + CalledBy(p2)
    case TNot(p) => CalledBy(p)
    case TAnd(p) => CalledBy(p)
    case TBehind(_, p) => CalledBy(p)
    case TCapture(_, _, p) => CalledBy(p)
    case _ => {}
  }

  lemma {:induction false} CalledExactly(t: Tree, k: nat)
    ensures k in CalledBy(t) <==> TCall(k) in Parts(t)
    decreases t
  {
    match t
    case TSeq(p1, p2) =>
      CalledExactly(p1, k);
      CalledExactly(p2, k);
    case TChoice(p1, p2) =>
      CalledExactly(p1, k);
      CalledExactly(p2, k);
    case TRep(p) => CalledExactly(p, k);
    case TNot(p) => CalledExactly(p, k);
    case TAnd(p) => CalledExactly(p, k);
    case TBehind(_, p) => CalledExactly(p, k);
    case TCapture(_, _, p) => CalledExactly(p, k);
    case _ =>
  }

  // The rules that `verifygrammar` looks at: those with a name, which are the
  // initial rule and the rules that are called.
  function UsedRules(rs: seq<Tree>): (used: set<nat>)
    ensures 0 in used
    ensures forall k :: 0 <= k < |rs| ==> CalledBy(rs[k]) <= used
    ensures forall x :: x in used && x != 0 ==> exists k :: 0 <= k < |rs| && x in CalledBy(rs[k])
  {
    if rs == [] then {0}
    else
      var used := UsedRules(rs[1..]);
      assert forall k :: 0 < k < |rs| ==> rs[k] == rs[1..][k - 1];
      CalledBy(rs[0]) + used
  }

  // What the constructors and `verifygrammar` check of a pattern, given how
  // deep the analyses look. In every grammar the used rules pass `verifyrule` and
  // `checkloops`. That look-behinds make no calls is what the source says, but it
  // does not check it.
  ghost predicate Accepted(honest: bool, below: nat, t: Tree)
    decreases t
  {
    match t
    case TRep(p) => Accepted(honest, below, p)
    case TSeq(p1, p2) => Accepted(honest, below, p1) && Accepted(honest, below, p2)
    case TChoice(p1, p2) => Accepted(honest, below, p1) && Accepted(honest, below, p2)
    case TNot(p) => Accepted(honest, below, p)
    case TAnd(p) => Accepted(honest, below, p)
    case TCapture(_, _, p) => Accepted(honest, below, p)
    case TBehind(_, p) => (honest ==> CalledBy(p) == {}) && Accepted(honest, below, p)
    case TGrammar(rs) =>
      && 0 < |rs| <= MAXRULES
      && (forall k :: 0 <= k < |rs| ==> Accepted(honest, below, rs[k]))
      && (forall k :: k in UsedRules(rs) ==> k < |rs| && RuleVerified(honest, below, rs, rs[k]))
    case _ => true
  }

  ghost predicate RuleVerified(honest: bool, below: nat, rs: seq<Tree>, t: Tree) {
    && VerifyRule(honest, below, rs, t, 0, false).Accept?
    && !CheckLoops(MAXRULES + below, rs, t)
  }

  // A whole pattern: no calls outside grammars and no empty loops.
  ghost predicate AcceptedPattern(honest: bool, below: nat, t: Tree) {
    Accepted(honest, below, t) && CalledBy(t) == {} && !CheckLoops(MAXRULES + below, [], t)
  }

  // -------------------------------------------------------------------------
  // The check of the source and the honest one
  // -------------------------------------------------------------------------

  // What the honest check accepts, the source accepts, and only the source takes a
  // nullable pattern for one that is not.
  lemma {:induction false} HonestIsStricter(below: nat, rules: seq<Tree>, t: Tree, npassed: nat, nb: bool, more: bool)
    requires npassed <= MAXRULES && (nb ==> more)
    ensures var h, v := VerifyRule(true, below, rules, t, npassed, more), VerifyRule(false, below, rules, t, npassed, nb);
            h.Accept? ==> v.Accept? && (v.nullable ==> h.nullable)
    decreases MAXRULES - npassed, t
  {
    match t
    case TNot(p) => HonestIsStricter(below, rules, p, npassed, true, true);
    case TAnd(p) => HonestIsStricter(below, rules, p, npassed, true, true);
    case TRep(p) => HonestIsStricter(below, rules, p, npassed, true, true);
    case TCapture(_, _, p) => HonestIsStricter(below, rules, p, npassed, nb, more);
    case TCall(k) =>
      if npassed < MAXRULES && k < |rules| { HonestIsStricter(below, rules, rules[k], npassed + 1, nb, more); }
    case TSeq(p1, p2) =>
      HonestIsStricter(below, rules, p1, npassed, false, false);
      HonestIsStricter(below, rules, p2, npassed, nb, more);
      VerifyExact(below, rules, p2, npassed, more);
    case TChoice(p1, p2) =>
      HonestIsStricter(below, rules, p1, npassed, nb, more);
      var h, v := VerifyRule(true, below, rules, p1, npassed, more), VerifyRule(false, below, rules, p1, npassed, nb);
      if h.Accept? { HonestIsStricter(below, rules, p2, npassed, v.nullable, h.nullable); }
    case _ =>
  }

  // No rule of a grammar is left-recursive, and no look-behind makes a call.
  ghost predicate NoLeftRecursion(below: nat, t: Tree)
    decreases t
  {
    match t
    case TRep(p) => NoLeftRecursion(below, p)
    case TSeq(p1, p2) => NoLeftRecursion(below, p1) && NoLeftRecursion(below, p2)
    case TChoice(p1, p2) => NoLeftRecursion(below, p1) && NoLeftRecursion(below, p2)
    case TNot(p) => NoLeftRecursion(below, p)
    case TAnd(p) => NoLeftRecursion(below, p)
    case TCapture(_, _, p) => NoLeftRecursion(below, p)
    case TBehind(_, p) => CalledBy(p) == {} && NoLeftRecursion(below, p)
    case TGrammar(rs) =>
      && (forall k :: 0 <= k < |rs| ==> NoLeftRecursion(below, rs[k]))
      && (forall k :: k in UsedRules(rs) && k < |rs| ==> LeftCalls(MAXRULES, below, rs, rs[k]))
    case _ => true
  }

  // The honest check lets through exactly what the source lets through and has no
  // left recursion.
  lemma {:induction false} AcceptedExactly(below: nat, t: Tree)
    ensures Accepted(true, below, t) <==> Accepted(false, below, t) && NoLeftRecursion(below, t)
    decreases t
  {
    hide VerifyRule, LeftCalls, CheckLoops, CalledBy, UsedRules;
    match t
    case TRep(p) => AcceptedExactly(below, p);
    case TSeq(p1, p2) =>
      AcceptedExactly(below, p1);
      AcceptedExactly(below, p2);
    case TChoice(p1, p2) =>
      AcceptedExactly(below, p1);
      AcceptedExactly(below, p2);
    case TNot(p) => AcceptedExactly(below, p);
    case TAnd(p) => AcceptedExactly(below, p);
    case TCapture(_, _, p) => AcceptedExactly(below, p);
    case TBehind(_, p) => AcceptedExactly(below, p);
    case TGrammar(rs) =>
      forall k | 0 <= k < |rs|
        ensures Accepted(true, below, rs[k]) <==> Accepted(false, below, rs[k]) && NoLeftRecursion(below, rs[k])
        ensures RuleVerified(true, below, rs, rs[k]) <==>
                RuleVerified(false, below, rs, rs[k]) && LeftCalls(MAXRULES, below, rs, rs[k])
      {
        AcceptedExactly(below, rs[k]);
        HonestIsStricter(below, rs, rs[k], 0, false, false);
        VerifyExact(below, rs, rs[k], 0, false);
      }
    case _ =>
  }

  // The check of the source meets no sub-grammar whose answer it gets wrong, and no
  // look-behind makes a call.
  ghost predicate FairPattern(below: nat, t: Tree)
    decreases t
  {
    match t
    case TRep(p) => FairPattern(below, p)
    case TSeq(p1, p2) => FairPattern(below, p1) && FairPattern(below, p2)
    case TChoice(p1, p2) => FairPattern(below, p1) && FairPattern(below, p2)
    case TNot(p) => FairPattern(below, p)
    case TAnd(p) => FairPattern(below, p)
    case TCapture(_, _, p) => FairPattern(below, p)
    case TBehind(_, p) => CalledBy(p) == {} && FairPattern(below, p)
    case TGrammar(rs) =>
      && (forall k :: 0 <= k < |rs| ==> FairPattern(below, rs[k]))
      && (forall k :: k in UsedRules(rs) && k < |rs| ==> FairToGrammars(below, rs, rs[k], 0, false))
    case _ => true
  }

  // On such patterns the check of the source is the honest one.
  lemma {:induction false} FairAccepted(below: nat, t: Tree)
    requires FairPattern(below, t)
    ensures Accepted(true, below, t) <==> Accepted(false, below, t)
    decreases t
  {
    hide VerifyRule, FairToGrammars, CheckLoops, CalledBy, UsedRules;
    match t
    case TRep(p) => FairAccepted(below, p);
    case TSeq(p1, p2) =>
      FairAccepted(below, p1);
      FairAccepted(below, p2);
    case TChoice(p1, p2) =>
      FairAccepted(below, p1);
      FairAccepted(below, p2);
    case TNot(p) => FairAccepted(below, p);
    case TAnd(p) => FairAccepted(below, p);
    case TCapture(_, _, p) => FairAccepted(below, p);
    case TBehind(_, p) => FairAccepted(below, p);
    case TGrammar(rs) =>
      forall k | 0 <= k < |rs| ensures Accepted(true, below, rs[k]) <==> Accepted(false, below, rs[k]) {
        FairAccepted(below, rs[k]);
      }
      forall k | k in UsedRules(rs) && k < |rs|
        ensures RuleVerified(true, below, rs, rs[k]) <==> RuleVerified(false, below, rs, rs[k])
      {
        FairIsHonest(below, rs, rs[k], 0, false);
      }
    case _ =>
  }

  // The rules of a grammar fit for matching.
  ghost predicate GrammarSafe(below: nat, rs: seq<Tree>)
  {
    forall k :: k in UsedRules(rs) ==>
      k < |rs| && Accepted(true, below, rs[k]) && CalledBy(rs[k]) <= UsedRules(rs)
      && !CheckLoops(MAXRULES + below, rs, rs[k]) && LeftCalls(MAXRULES, below, rs, rs[k])
  }

  lemma AcceptedGrammarSafe(below: nat, t: Tree)
    requires t.TGrammar? && Accepted(true, below, t)
    ensures GrammarSafe(below, t.rules)
  {
    forall k | k in UsedRules(t.rules)
      ensures k < |t.rules| && LeftCalls(MAXRULES, below, t.rules, t.rules[k])
    {
      assert RuleVerified(true, below, t.rules, t.rules[k]);
      VerifyExact(below, t.rules, t.rules[k], 0, false);
    }
  }

  // -------------------------------------------------------------------------
  // Matching comes to an end
  // -------------------------------------------------------------------------

  // A tree that only calls rules with at most `n` left calls makes one more.
  lemma {:induction false} OneCallMore(called: set<nat>, n: nat, below: nat, rules: seq<Tree>, t: Tree)
    requires CalledBy(t) <= called
    requires forall k :: k in called ==> k < |rules| && LeftCalls(n, below, rules, rules[k])
    ensures LeftCalls(n + 1, below, rules, t)
    decreases t
  {
    match t
    case TSeq(p1, p2) =>
      OneCallMore(called, n, below, rules, p1);
      OneCallMore(called, n, below, rules, p2);
    case TChoice(p1, p2) =>
      OneCallMore(called, n, below, rules, p1);
      OneCallMore(called, n, below, rules, p2);
    case TRep(p) => OneCallMore(called, n, below, rules, p);
    case TNot(p) => OneCallMore(called, n, below, rules, p);
    case TAnd(p) => OneCallMore(called, n, below, rules, p);
    case TCapture(_, _, p) => OneCallMore(called, n, below, rules, p);
    case TCall(k) => assert k in called;
    case _ =>
  }

  lemma {:induction false} SizeAt(ts: seq<Tree>, k: nat)
    requires k < |ts|
    ensures Size(ts[k]) <= SizeAll(ts)
  {
    if k > 0 { SizeAt(ts[1..], k - 1); }
  }

  // The rules that `t` may come to call, and how big they are at most.
  ghost predicate Fits(weight: nat, below: nat, rules: seq<Tree>, t: Tree) {
    && Size(t) <= weight
    && (CalledBy(t) == {} ||
        (CalledBy(t) <= UsedRules(rules) && GrammarSafe(below, rules) && SizeAll(rules) <= weight))
  }

  lemma FitsLeft(weight: nat, below: nat, rules: seq<Tree>, t: Tree)
    requires Fits(weight, below, rules, t)
    ensures LeftCalls(MAXRULES + 1, below, rules, t)
  {
    if CalledBy(t) == {} {
      OneCallMore({}, MAXRULES, below, rules, t);
    } else {
      OneCallMore(UsedRules(rules), MAXRULES, below, rules, t);
    }
  }

  // A tree that may be matched at any position of any subject.
  ghost predicate Sound(weight: nat, below: nat, rules: seq<Tree>, t: Tree) {
    && Accepted(true, below, t) && !CheckLoops(MAXRULES + below, rules, t)
    && Fits(weight, below, rules, t)
  }

  // Enough fuel to match `t` at `i`. Going down, first the weight decreases (at
  // a sub-grammar or a look-behind), then what is left of the subject, then the
  // number of calls that can be made without consuming, then the tree.
  lemma {:induction false} Halts(weight: nat, n: nat, below: nat, rules: seq<Tree>, t: Tree, s: seq<Byte>, i: nat)
    returns (fuel: nat)
    requires i <= |s| && Sound(weight, below, rules, t) && LeftCalls(n, below, rules, t)
    ensures !Eval(fuel, rules, t, s, i).Diverged?
    decreases weight, |s| - i, n, t, 1
  {
    hide Sound, LeftCalls, Eval;
    match t
    case TRep(_) => fuel := HaltsRep(weight, n, below, rules, t, s, i);
    case TSeq(_, _) => fuel := HaltsSeq(weight, n, below, rules, t, s, i);
    case TChoice(_, _) => fuel := HaltsChoice(weight, n, below, rules, t, s, i);
    case TCall(_) => fuel := HaltsCall(weight, n, below, rules, t, s, i);
    case TGrammar(_) => fuel := HaltsGrammar(weight, n, below, rules, t, s, i);
    case TBehind(_, _) => fuel := HaltsBehind(weight, n, below, rules, t, s, i);
    case _ => fuel := HaltsBody(weight, n, below, rules, t, s, i);
  }

  lemma {:induction false} HaltsBody(weight: nat, n: nat, below: nat, rules: seq<Tree>, t: Tree, s: seq<Byte>, i: nat)
    returns (fuel: nat)
    requires i <= |s| && Sound(weight, below, rules, t) && LeftCalls(n, below, rules, t)
    requires !t.TRep? && !t.TSeq? && !t.TChoice? && !t.TCall? && !t.TGrammar? && !t.TBehind?
    ensures !Eval(fuel, rules, t, s, i).Diverged?
    decreases weight, |s| - i, n, t, 0
  {
    hide GrammarSafe, UsedRules, SizeAll;
    match t
    case TNot(p) => fuel := Halts(weight, n, below, rules, p, s, i);
    case TAnd(p) => fuel := Halts(weight, n, below, rules, p, s, i);
    case TCapture(_, _, p) => fuel := Halts(weight, n, below, rules, p, s, i);
    case TChar(_) => fuel := 0;
    case TSet(_) => fuel := 0;
    case TAny => fuel := 0;
    case TTrue => fuel := 0;
    case TFalse => fuel := 0;
  }

  lemma {:induction false} HaltsRep(weight: nat, n: nat, below: nat, rules: seq<Tree>, t: Tree, s: seq<Byte>, i: nat)
    returns (fuel: nat)
    requires i <= |s| && Sound(weight, below, rules, t) && LeftCalls(n, below, rules, t) && t.TRep?
    ensures !Eval(fuel, rules, t, s, i).Diverged?
    decreases weight, |s| - i, n, t, 0
  {
    hide GrammarSafe, UsedRules, SizeAll, CheckAux;
    var f1 := Halts(weight, n, below, rules, t.p, s, i);
    var r1 := Eval(f1, rules, t.p, s, i);
    fuel := f1;
    if r1.Matched? {
      NullableSound(MAXRULES + below, f1, rules, t.p, s, i);
      FitsLeft(weight, below, rules, t);
      var f2 := Halts(weight, MAXRULES + 1, below, rules, t, s, r1.end);
      fuel := if f1 > f2 then f1 + 1 else f2 + 1;
      MoreFuel(f1, fuel, rules, t.p, s, i);
      MoreFuel(f2, fuel - 1, rules, t, s, r1.end);
    }
  }

  lemma {:induction false} HaltsSeq(weight: nat, n: nat, below: nat, rules: seq<Tree>, t: Tree, s: seq<Byte>, i: nat)
    returns (fuel: nat)
    requires i <= |s| && Sound(weight, below, rules, t) && LeftCalls(n, below, rules, t) && t.TSeq?
    ensures !Eval(fuel, rules, t, s, i).Diverged?
    decreases weight, |s| - i, n, t, 0
  {
    hide GrammarSafe, UsedRules, SizeAll, CheckAux;
    var TSeq(p1, p2) := t;
    var f1 := Halts(weight, n, below, rules, p1, s, i);
    var r1 := Eval(f1, rules, p1, s, i);
    fuel := f1;
    if r1.Matched? {
      var f2: nat;
      if r1.end == i {
        if !Nullable(n + below, rules, p1) { NullableSound(n + below, f1, rules, p1, s, i); }
        f2 := Halts(weight, n, below, rules, p2, s, i);
      } else {
        FitsLeft(weight, below, rules, p2);
        f2 := Halts(weight, MAXRULES + 1, below, rules, p2, s, r1.end);
      }
      fuel := if f1 > f2 then f1 else f2;
      MoreFuel(f1, fuel, rules, p1, s, i);
      MoreFuel(f2, fuel, rules, p2, s, r1.end);
    }
  }

  lemma {:induction false} HaltsChoice(weight: nat, n: nat, below: nat, rules: seq<Tree>, t: Tree, s: seq<Byte>, i: nat)
    returns (fuel: nat)
    requires i <= |s| && Sound(weight, below, rules, t) && LeftCalls(n, below, rules, t) && t.TChoice?
    ensures !Eval(fuel, rules, t, s, i).Diverged?
    decreases weight, |s| - i, n, t, 0
  {
    hide GrammarSafe, UsedRules, SizeAll;
    var f1 := Halts(weight, n, below, rules, t.p1, s, i);
    var f2 := Halts(weight, n, below, rules, t.p2, s, i);
    fuel := if f1 > f2 then f1 else f2;
    MoreFuel(f1, fuel, rules, t.p1, s, i);
    MoreFuel(f2, fuel, rules, t.p2, s, i);
  }

  lemma {:induction false} HaltsCall(weight: nat, n: nat, below: nat, rules: seq<Tree>, t: Tree, s: seq<Byte>, i: nat)
    returns (fuel: nat)
    requires i <= |s| && Sound(weight, below, rules, t) && LeftCalls(n, below, rules, t) && t.TCall?
    ensures !Eval(fuel, rules, t, s, i).Diverged?
    decreases weight, |s| - i, n, t, 0
  {
    hide UsedRules;
    var k := t.rule;
    assert k in CalledBy(t) && k in UsedRules(rules);
    SizeAt(rules, k);
    var f := Halts(weight, n - 1, below, rules, rules[k], s, i);
    fuel := f + 1;
  }

  lemma {:induction false} HaltsBehind(weight: nat, n: nat, below: nat, rules: seq<Tree>, t: Tree, s: seq<Byte>, i: nat)
    returns (fuel: nat)
    requires i <= |s| && Sound(weight, below, rules, t) && t.TBehind?
    ensures !Eval(fuel, rules, t, s, i).Diverged?
    decreases weight, |s| - i, n, t, 0
  {
    hide GrammarSafe, UsedRules, SizeAll;
    fuel := 0;
    if t.n <= i {
      FitsLeft(Size(t.p), below, rules, t.p);
      fuel := Halts(Size(t.p), MAXRULES + 1, below, rules, t.p, s, i - t.n);
    }
  }

  lemma {:induction false} HaltsGrammar(weight: nat, n: nat, below: nat, rules: seq<Tree>, t: Tree, s: seq<Byte>, i: nat)
    returns (fuel: nat)
    requires i <= |s| && Sound(weight, below, rules, t) && t.TGrammar?
    ensures !Eval(fuel, rules, t, s, i).Diverged?
    decreases weight, |s| - i, n, t, 0
  {
    hide UsedRules;
    var rs := t.rules;
    AcceptedGrammarSafe(below, t);
    SizeAt(rs, 0);
    fuel := Halts(SizeAll(rs), MAXRULES, below, rs, rs[0], s, i);
  }

  // Every accepted pattern has an answer for every subject and position.
  lemma {:induction false} AcceptedHalts(below: nat, t: Tree, s: seq<Byte>, i: nat) returns (fuel: nat)
    requires i <= |s| && AcceptedPattern(true, below, t)
    ensures !Eval(fuel, [], t, s, i).Diverged?
  {
    OneCallMore({}, MAXRULES, below, [], t);
    fuel := Halts(Size(t), MAXRULES + 1, below, [], t, s, i);
  }
}
