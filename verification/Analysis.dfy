// The analyses of lpcode.c.

module Analysis {
  // What each of them promises about the parsing expression it looks at.

  import opened PegSyntax

  // -------------------------------------------------------------------------
  // The analyses
  // -------------------------------------------------------------------------

  // `checkaux`: with `nofail` false, may the pattern match without consuming?
  // With `nofail` true, is it sure never to fail? `depth` bounds how many calls
  // are followed; Termination.dfy shows that the bound is never reached in a
  // grammar without left recursion. A call that is not followed gets the
  // cautious answer.
  function CheckAux(depth: nat, rules: seq<Tree>, t: Tree, nofail: bool): bool
    decreases depth, t
  {
    match t
    case TChar(_) => false
    case TSet(_) => false
    case TAny => false
    case TFalse => false
    case TTrue => true
    case TRep(_) => true
    case TNot(_) => !nofail
    case TBehind(_, _) => !nofail
    case TAnd(p) => !nofail || CheckAux(depth, rules, p, nofail)
    case TSeq(p1, p2) => CheckAux(depth, rules, p1, nofail) && CheckAux(depth, rules, p2, nofail)
    case TChoice(p1, p2) => CheckAux(depth, rules, p2, nofail) || CheckAux(depth, rules, p1, nofail)
    case TCapture(_, _, p) => CheckAux(depth, rules, p, nofail)
    case TGrammar(rs) => if |rs| == 0 then !nofail else CheckAux(depth, rs, rs[0], nofail)
    case TCall(k) =>
      if depth == 0 || k >= |rules| then !nofail else CheckAux(depth - 1, rules, rules[k], nofail)
  }

  predicate Nullable(depth: nat, rules: seq<Tree>, t: Tree) { CheckAux(depth, rules, t, false) }

  predicate Nofail(depth: nat, rules: seq<Tree>, t: Tree) { CheckAux(depth, rules, t, true) }

  // The number of nodes of a tree; the rules of a grammar count twice so that
  // entering a grammar leaves room for its calls.
  function Size(t: Tree): (n: nat)
    ensures n > 0
  {
    match t
    case TRep(p) => 1 + Size(p)
    case TSeq(p1, p2) => 1 + Size(p1) + Size(p2)
    case TChoice(p1, p2) => 1 + Size(p1) + Size(p2)
    case TNot(p) => 1 + Size(p)
    case TAnd(p) => 1 + Size(p)
    case TGrammar(rs) => 1 + 2 * SizeAll(rs)
    case TBehind(_, p) => 1 + Size(p)
    case TCapture(_, _, p) => 1 + Size(p)
    case _ => 1
  }

  function SizeAll(ts: seq<Tree>): nat {
    if ts == [] then 0 else Size(ts[0]) + SizeAll(ts[1..])
  }

  // The rules not yet being visited, by size. `callrecursive` sets the key of a
  // call to 0 while it visits the rule; here the rule itself is marked.
  function Unmarked(rules: seq<Tree>, marks: seq<bool>): nat
    requires |marks| == |rules|
  {
    if rules == [] then 0
    else (if marks[0] then 0 else Size(rules[0])) + Unmarked(rules[1..], marks[1..])
  }

  lemma {:induction false} MarkingShrinks(rules: seq<Tree>, marks: seq<bool>, k: nat)
    requires |marks| == |rules| && k < |rules| && !marks[k]
    ensures Unmarked(rules, marks[k := true]) + Size(rules[k]) == Unmarked(rules, marks)
  {
    if k == 0 {
      assert marks[k := true][1..] == marks[1..];
    } else {
      assert marks[k := true][1..] == marks[1..][k - 1 := true];
      MarkingShrinks(rules[1..], marks[1..], k - 1);
    }
  }

  function NoMarks(n: nat): (marks: seq<bool>)
    ensures |marks| == n && forall k :: 0 <= k < n ==> !marks[k]
  {
    seq(n, _ => false)
  }

  lemma {:induction false} FreshGrammarFits(rs: seq<Tree>, marks: seq<bool>)
    requires |rs| > 0 && |marks| == |rs| && forall k :: 0 <= k < |rs| ==> !marks[k]
    ensures Size(rs[0]) + Unmarked(rs, marks) <= 2 * SizeAll(rs)
  {
    UnmarkedFresh(rs, marks);
  }

  lemma {:induction false} UnmarkedFresh(rs: seq<Tree>, marks: seq<bool>)
    requires |marks| == |rs| && forall k :: 0 <= k < |rs| ==> !marks[k]
    ensures Unmarked(rs, marks) == SizeAll(rs)
  {
    if rs != [] { UnmarkedFresh(rs[1..], marks[1..]); }
  }

  // `hascaptures`.
  predicate HasCaptures(rules: seq<Tree>, marks: seq<bool>, t: Tree)
    requires |marks| == |rules|
    decreases Size(t) + Unmarked(rules, marks)
  {
    match t
    case TCapture(_, _, _) => true
    case TCall(k) =>
      if k >= |rules| || marks[k] then false
      else
        MarkingShrinks(rules, marks, k);
        HasCaptures(rules, marks[k := true], rules[k])
    case TGrammar(rs) =>
      if |rs| == 0 then false
      else
        FreshGrammarFits(rs, NoMarks(|rs|));
        HasCaptures(rs, NoMarks(|rs|), rs[0])
    case TRep(p) => HasCaptures(rules, marks, p)
    case TSeq(p1, p2) => HasCaptures(rules, marks, p1) || HasCaptures(rules, marks, p2)
    case TChoice(p1, p2) => HasCaptures(rules, marks, p1) || HasCaptures(rules, marks, p2)
    case TNot(p) => HasCaptures(rules, marks, p)
    case TAnd(p) => HasCaptures(rules, marks, p)
    case TBehind(_, p) => HasCaptures(rules, marks, p)
    case _ => false
  }

  // `fixedlen`: the number of characters every match consumes, or -1.
  function FixedLen(rules: seq<Tree>, marks: seq<bool>, t: Tree): (n: int)
    requires |marks| == |rules|
    ensures n >= -1
    decreases Size(t) + Unmarked(rules, marks)
  {
    match t
    case TChar(_) => 1
    case TSet(_) => 1
    case TAny => 1
    case TFalse => 0
    case TTrue => 0
    case TNot(_) => 0
    case TAnd(_) => 0
    case TBehind(_, _) => 0
    case TRep(_) => -1
    case TCapture(_, _, p) => FixedLen(rules, marks, p)
    case TGrammar(rs) =>
      if |rs| == 0 then -1
      else
        FreshGrammarFits(rs, NoMarks(|rs|));
        FixedLen(rs, NoMarks(|rs|), rs[0])
    case TCall(k) =>
      if k >= |rules| || marks[k] then -1
      else
        MarkingShrinks(rules, marks, k);
        FixedLen(rules, marks[k := true], rules[k])
    case TSeq(p1, p2) =>
      var n1 := FixedLen(rules, marks, p1);
      if n1 < 0 then -1 else
      var n2 := FixedLen(rules, marks, p2);
      if n2 < 0 then -1 else n1 + n2
    case TChoice(p1, p2) =>
      var n1 := FixedLen(rules, marks, p1);
      var n2 := FixedLen(rules, marks, p2);
      if n1 != n2 || n1 < 0 then -1 else n1
  }

  function Length(rules: seq<Tree>, t: Tree): (n: int)
    ensures n >= -1
  {
    FixedLen(rules, NoMarks(|rules|), t)
  }

  predicate Captures(rules: seq<Tree>, t: Tree) {
    HasCaptures(rules, NoMarks(|rules|), t)
  }

  // `getfirst`: the characters a match may start with, given the characters
  // `follow` that may come next, and whether the empty subject may be accepted.
  datatype FirstSet = FirstSet(cs: Charset, empty: bool)

  function GetFirst(depth: nat, rules: seq<Tree>, t: Tree, follow: Charset): FirstSet
    decreases depth, t
  {
    match t
    case TChar(c) => FirstSet({c}, false)
    case TSet(cs) => FirstSet(cs, false)
    case TAny => FirstSet(AllBytes(), false)
    case TTrue => FirstSet(follow, true)
    case TFalse => FirstSet({}, false)
    case TChoice(p1, p2) =>
      var f1 := GetFirst(depth, rules, p1, follow);
      var f2 := GetFirst(depth, rules, p2, follow);
      FirstSet(f1.cs + f2.cs, f1.empty || f2.empty)
    case TSeq(p1, p2) =>
      if !Nullable(depth, rules, p1) then GetFirst(depth, rules, p1, AllBytes())
      else
        var f2 := GetFirst(depth, rules, p2, follow);
        var f1 := GetFirst(depth, rules, p1, f2.cs);
        FirstSet(f1.cs, f1.empty && f2.empty)
    case TRep(p) =>
      FirstSet(GetFirst(depth, rules, p, follow).cs + follow, true)
    case TCapture(_, _, p) => GetFirst(depth, rules, p, follow)
    case TGrammar(rs) =>
      if |rs| == 0 then FirstSet(AllBytes(), true) else GetFirst(depth, rs, rs[0], follow)
    case TCall(k) =>
      if depth == 0 || k >= |rules| then FirstSet(AllBytes(), true)
      else GetFirst(depth - 1, rules, rules[k], follow)
    case TAnd(p) =>
      var f := GetFirst(depth, rules, p, follow);
      FirstSet(f.cs * follow, f.empty)
    case TNot(p) =>
      (match ToCharset(p)
       case Some(cs) => FirstSet(AllBytes() - cs, true)
       case None => FirstSet(follow, true))
    case TBehind(_, _) => FirstSet(follow, true)
  }

  // `headfail`: can the pattern fail only because of the next character?
  predicate Headfail(depth: nat, rules: seq<Tree>, t: Tree)
    decreases depth, t
  {
    match t
    case TChar(_) => true
    case TSet(_) => true
    case TAny => true
    case TFalse => true
    case TTrue => false
    case TRep(_) => false
    case TNot(_) => false
    case TBehind(_, _) => false
    case TCapture(_, _, p) => Headfail(depth, rules, p)
    case TAnd(p) => Headfail(depth, rules, p)
    case TGrammar(rs) => |rs| > 0 && Headfail(depth, rs, rs[0])
    case TCall(k) => depth > 0 && k < |rules| && Headfail(depth - 1, rules, rules[k])
    case TSeq(p1, p2) => Nofail(depth, rules, p2) && Headfail(depth, rules, p1)
    case TChoice(p1, p2) => Headfail(depth, rules, p1) && Headfail(depth, rules, p2)
  }

  // `needfollow`: does the code of the pattern depend on its follow set?
  predicate NeedFollow(t: Tree) {
    match t
    case TChoice(_, _) => true
    case TRep(_) => true
    case TCapture(_, _, p) => NeedFollow(p)
    case TSeq(_, p2) => NeedFollow(p2)
    case _ => false
  }

  // -------------------------------------------------------------------------
  // What the analyses promise
  // -------------------------------------------------------------------------

  // No part of the pattern, nor of a grammar in it, is a predicate.
  ghost predicate Plain(t: Tree) {
    match t
    case TNot(_) => false
    case TAnd(_) => false
    case TBehind(_, _) => false
    case TRep(p) => Plain(p)
    case TSeq(p1, p2) => Plain(p1) && Plain(p2)
    case TChoice(p1, p2) => Plain(p1) && Plain(p2)
    case TCapture(_, _, p) => Plain(p)
    case TGrammar(rs) => forall k :: 0 <= k < |rs| ==> Plain(rs[k])
    case _ => true
  }

  // Without predicates both answers are exact: the pattern is nullable, and sure not
  // to fail, if and only if it matches the empty subject.
  lemma {:induction false} NullableExact(depth: nat, fuel: nat, rules: seq<Tree>, t: Tree)
    requires Plain(t) && (forall k :: 0 <= k < |rules| ==> Plain(rules[k]))
    requires fuel <= depth && !Eval(fuel, rules, t, [], 0).Diverged?
    ensures Nullable(depth, rules, t) <==> Eval(fuel, rules, t, [], 0).Matched?
    ensures Nofail(depth, rules, t) <==> Nullable(depth, rules, t)
    decreases fuel, t
  {
    match t
    case TRep(_) => NofailSound(depth, fuel, rules, t, [], 0);
    case TSeq(p1, p2) =>
      NullableExact(depth, fuel, rules, p1);
      if Eval(fuel, rules, p1, [], 0).Matched? { NullableExact(depth, fuel, rules, p2); }
    case TChoice(p1, p2) =>
      NullableExact(depth, fuel, rules, p1);
      if Eval(fuel, rules, p1, [], 0).NoMatch? { NullableExact(depth, fuel, rules, p2); }
    case TCapture(_, _, p) => NullableExact(depth, fuel, rules, p);
    case TGrammar(rs) => NullableExact(depth, fuel, rs, rs[0]);
    case TCall(k) => NullableExact(depth - 1, fuel - 1, rules, rules[k]);
    case _ =>
  }

  lemma {:induction false} NullableSound(depth: nat, fuel: nat, rules: seq<Tree>, t: Tree, s: seq<Byte>, i: nat)
    requires i <= |s| && !Nullable(depth, rules, t)
    ensures var r := Eval(fuel, rules, t, s, i); r.Matched? ==> r.end > i
    decreases fuel, t
  {
    match t
    case TSeq(p1, p2) =>
      if !Nullable(depth, rules, p1) {
        NullableSound(depth, fuel, rules, p1, s, i);
      } else {
        var r := Eval(fuel, rules, p1, s, i);
        if r.Matched? { NullableSound(depth, fuel, rules, p2, s, r.end); }
      }
    case TChoice(p1, p2) =>
      NullableSound(depth, fuel, rules, p1, s, i);
      NullableSound(depth, fuel, rules, p2, s, i);
    case TCapture(_, _, p) => NullableSound(depth, fuel, rules, p, s, i);
    case TGrammar(rs) => if |rs| > 0 { NullableSound(depth, fuel, rs, rs[0], s, i); }
    case TCall(k) =>
      if fuel > 0 && k < |rules| { NullableSound(depth - 1, fuel - 1, rules, rules[k], s, i); }
    case _ =>
  }

  lemma {:induction false} NofailSound(depth: nat, fuel: nat, rules: seq<Tree>, t: Tree, s: seq<Byte>, i: nat)
    requires i <= |s| && Nofail(depth, rules, t)
    ensures !Eval(fuel, rules, t, s, i).NoMatch?
    decreases fuel, t
  {
    match t
    case TRep(p) =>
      var r := Eval(fuel, rules, p, s, i);
      if r.Matched? && fuel > 0 { NofailSound(depth, fuel - 1, rules, t, s, r.end); }
    case TAnd(p) => NofailSound(depth, fuel, rules, p, s, i);
    case TSeq(p1, p2) =>
      NofailSound(depth, fuel, rules, p1, s, i);
      var r := Eval(fuel, rules, p1, s, i);
      if r.Matched? { NofailSound(depth, fuel, rules, p2, s, r.end); }
    case TChoice(p1, p2) =>
      if Nofail(depth, rules, p1) {
        NofailSound(depth, fuel, rules, p1, s, i);
      } else {
        NofailSound(depth, fuel, rules, p2, s, i);
      }
    case TCapture(_, _, p) => NofailSound(depth, fuel, rules, p, s, i);
    case TGrammar(rs) => if |rs| > 0 { NofailSound(depth, fuel, rs, rs[0], s, i); }
    case TCall(k) =>
      if fuel > 0 && k < |rules| { NofailSound(depth - 1, fuel - 1, rules, rules[k], s, i); }
    case _ =>
  }

  lemma {:induction false} NofailIsNullable(depth: nat, rules: seq<Tree>, t: Tree)
    requires Nofail(depth, rules, t)
    ensures Nullable(depth, rules, t)
    decreases depth, t
  {
    match t
    case TSeq(p1, p2) =>
      NofailIsNullable(depth, rules, p1);
      NofailIsNullable(depth, rules, p2);
    case TChoice(p1, p2) =>
      if Nofail(depth, rules, p1) { NofailIsNullable(depth, rules, p1); }
      else { NofailIsNullable(depth, rules, p2); }
    case TCapture(_, _, p) => NofailIsNullable(depth, rules, p);
    case TGrammar(rs) => NofailIsNullable(depth, rs, rs[0]);
    case TCall(k) => NofailIsNullable(depth - 1, rules, rules[k]);
    case _ =>
  }

  lemma {:induction false} FixedLenSound(fuel: nat, rules: seq<Tree>, marks: seq<bool>, t: Tree, s: seq<Byte>, i: nat)
    requires |marks| == |rules| && i <= |s| && FixedLen(rules, marks, t) >= 0
    ensures var r := Eval(fuel, rules, t, s, i);
            r.Matched? ==> r.end == i + FixedLen(rules, marks, t)
    decreases fuel, t
  {
    match t
    case TCapture(_, _, p) => FixedLenSound(fuel, rules, marks, p, s, i);
    case TGrammar(rs) => FixedLenSound(fuel, rs, NoMarks(|rs|), rs[0], s, i);
    case TCall(k) =>
      if fuel > 0 { FixedLenSound(fuel - 1, rules, marks[k := true], rules[k], s, i); }
    case TSeq(p1, p2) =>
      FixedLenSound(fuel, rules, marks, p1, s, i);
      var r := Eval(fuel, rules, p1, s, i);
      if r.Matched? { FixedLenSound(fuel, rules, marks, p2, s, r.end); }
    case TChoice(p1, p2) =>
      FixedLenSound(fuel, rules, marks, p1, s, i);
      FixedLenSound(fuel, rules, marks, p2, s, i);
    case _ =>
  }

  // The first-set law: a match that consumes starts with a character of the
  // set; a match that consumes nothing in front of a character of `follow` has
  // that character in the set; and a match of the empty rest sets the flag.
  lemma {:induction false} FirstSound(depth: nat, fuel: nat, rules: seq<Tree>, t: Tree, follow: Charset, s: seq<Byte>, i: nat)
    requires i <= |s|
    ensures var r := Eval(fuel, rules, t, s, i);
            var f := GetFirst(depth, rules, t, follow);
            r.Matched? ==>
              && (r.end > i ==> s[i] in f.cs)
              && (r.end == i < |s| && s[i] in follow ==> s[i] in f.cs)
              && (i == |s| ==> f.empty)
    decreases fuel, t
  {
    match t
    case TChoice(p1, p2) =>
      FirstSound(depth, fuel, rules, p1, follow, s, i);
      FirstSound(depth, fuel, rules, p2, follow, s, i);
    case TSeq(p1, p2) =>
      var r := Eval(fuel, rules, p1, s, i);
      if r.Matched? {
        if !Nullable(depth, rules, p1) {
          NullableSound(depth, fuel, rules, p1, s, i);
          FirstSound(depth, fuel, rules, p1, AllBytes(), s, i);
        } else {
          FirstSound(depth, fuel, rules, p1, GetFirst(depth, rules, p2, follow).cs, s, i);
          FirstSound(depth, fuel, rules, p2, follow, s, r.end);
        }
      }
    case TRep(p) =>
      FirstSound(depth, fuel, rules, p, follow, s, i);
      var r := Eval(fuel, rules, p, s, i);
      if r.Matched? && fuel > 0 { FirstSound(depth, fuel - 1, rules, t, follow, s, r.end); }
    case TCapture(_, _, p) => FirstSound(depth, fuel, rules, p, follow, s, i);
    case TGrammar(rs) => if |rs| > 0 { FirstSound(depth, fuel, rs, rs[0], follow, s, i); }
    case TCall(k) =>
      if fuel > 0 && k < |rules| && depth > 0 {
        FirstSound(depth - 1, fuel - 1, rules, rules[k], follow, s, i);
      }
    case TAnd(p) => FirstSound(depth, fuel, rules, p, follow, s, i);
    case TNot(p) => 
    case TBehind(n, p) =>
    case _ =>
  }

  lemma {:induction false} NofailFirstIsFull(depth: nat, rules: seq<Tree>, t: Tree)
    requires Nofail(depth, rules, t)
    ensures GetFirst(depth, rules, t, AllBytes()).cs == AllBytes()
    decreases depth, t
  {
    match t
    case TSeq(p1, p2) =>
      NofailIsNullable(depth, rules, p1);
      NofailFirstIsFull(depth, rules, p1);
      NofailFirstIsFull(depth, rules, p2);
    case TChoice(p1, p2) =>
      if Nofail(depth, rules, p1) { NofailFirstIsFull(depth, rules, p1); }
      else { NofailFirstIsFull(depth, rules, p2); }
    case TAnd(p) => NofailFirstIsFull(depth, rules, p);
    case TCapture(_, _, p) => NofailFirstIsFull(depth, rules, p);
    case TGrammar(rs) => NofailFirstIsFull(depth, rs, rs[0]);
    case TCall(k) => NofailFirstIsFull(depth - 1, rules, rules[k]);
    case _ =>
  }

  lemma {:induction false} HeadfailNeverEmpty(depth: nat, rules: seq<Tree>, t: Tree, follow: Charset)
    requires Headfail(depth, rules, t)
    ensures !GetFirst(depth, rules, t, follow).empty
    decreases depth, t
  {
    match t
    case TSeq(p1, p2) =>
      HeadfailNeverEmpty(depth, rules, p1, AllBytes());
      HeadfailNeverEmpty(depth, rules, p1, GetFirst(depth, rules, p2, follow).cs);
    case TChoice(p1, p2) =>
      HeadfailNeverEmpty(depth, rules, p1, follow);
      HeadfailNeverEmpty(depth, rules, p2, follow);
    case TAnd(p) => HeadfailNeverEmpty(depth, rules, p, follow);
    case TCapture(_, _, p) => HeadfailNeverEmpty(depth, rules, p, follow);
    case TGrammar(rs) => HeadfailNeverEmpty(depth, rs, rs[0], follow);
    case TCall(k) => HeadfailNeverEmpty(depth - 1, rules, rules[k], follow);
    case _ =>
  }

  // A head-failing pattern, given enough fuel, matches exactly when the next
  // character exists and lies in its first set.
  lemma {:induction false} HeadfailExact(depth: nat, fuel: nat, rules: seq<Tree>, t: Tree, s: seq<Byte>, i: nat)
    requires i <= |s| && Headfail(depth, rules, t) && !Eval(fuel, rules, t, s, i).Diverged?
    ensures Eval(fuel, rules, t, s, i).Matched?
       <==> i < |s| && s[i] in GetFirst(depth, rules, t, AllBytes()).cs
  {
    HeadfailNeverEmpty(depth, rules, t, AllBytes());
    FirstSound(depth, fuel, rules, t, AllBytes(), s, i);
    if i < |s| && s[i] in GetFirst(depth, rules, t, AllBytes()).cs {
      HeadfailComplete(depth, fuel, rules, t, s, i);
    }
  }

  lemma {:induction false} HeadfailComplete(depth: nat, fuel: nat, rules: seq<Tree>, t: Tree, s: seq<Byte>, i: nat)
    requires i < |s| && Headfail(depth, rules, t)
    requires s[i] in GetFirst(depth, rules, t, AllBytes()).cs
    ensures !Eval(fuel, rules, t, s, i).NoMatch?
    decreases fuel, t
  {
    match t
    case TSeq(p1, p2) =>
      NofailFirstIsFull(depth, rules, p2);
      HeadfailComplete(depth, fuel, rules, p1, s, i);
      var r := Eval(fuel, rules, p1, s, i);
      if r.Matched? { NofailSound(depth, fuel, rules, p2, s, r.end); }
    case TChoice(p1, p2) =>
      if s[i] in GetFirst(depth, rules, p1, AllBytes()).cs {
        HeadfailComplete(depth, fuel, rules, p1, s, i);
      } else {
        HeadfailComplete(depth, fuel, rules, p2, s, i);
      }
    case TAnd(p) => HeadfailComplete(depth, fuel, rules, p, s, i);
    case TCapture(_, _, p) => HeadfailComplete(depth, fuel, rules, p, s, i);
    case TGrammar(rs) => HeadfailComplete(depth, fuel, rs, rs[0], s, i);
    case TCall(k) =>
      if fuel > 0 { HeadfailComplete(depth - 1, fuel - 1, rules, rules[k], s, i); }
    case _ =>
  }

  // A capture reachable through at most `depth` calls.
  ghost predicate CaptureWithin(depth: nat, rules: seq<Tree>, t: Tree)
    decreases depth, t
  {
    match t
    case TCapture(_, _, _) => true
    case TCall(k) => depth > 0 && k < |rules| && CaptureWithin(depth - 1, rules, rules[k])
    case TGrammar(rs) => |rs| > 0 && CaptureWithin(depth, rs, rs[0])
    case TRep(p) => CaptureWithin(depth, rules, p)
    case TSeq(p1, p2) => CaptureWithin(depth, rules, p1) || CaptureWithin(depth, rules, p2)
    case TChoice(p1, p2) => CaptureWithin(depth, rules, p1) || CaptureWithin(depth, rules, p2)
    case TNot(p) => CaptureWithin(depth, rules, p)
    case TAnd(p) => CaptureWithin(depth, rules, p)
    case TBehind(_, p) => CaptureWithin(depth, rules, p)
    case _ => false
  }

  lemma {:induction false} CaptureWithinGrows(depth: nat, more: nat, rules: seq<Tree>, t: Tree)
    requires depth <= more && CaptureWithin(depth, rules, t)
    ensures CaptureWithin(more, rules, t)
    decreases depth, t
  {
    match t
    case TCall(k) => CaptureWithinGrows(depth - 1, more - 1, rules, rules[k]);
    case TGrammar(rs) => CaptureWithinGrows(depth, more, rs, rs[0]);
    case TRep(p) => CaptureWithinGrows(depth, more, rules, p);
    case TSeq(p1, p2) =>
      if CaptureWithin(depth, rules, p1) { CaptureWithinGrows(depth, more, rules, p1); }
      else { CaptureWithinGrows(depth, more, rules, p2); }
    case TChoice(p1, p2) =>
      if CaptureWithin(depth, rules, p1) { CaptureWithinGrows(depth, more, rules, p1); }
      else { CaptureWithinGrows(depth, more, rules, p2); }
    case TNot(p) => CaptureWithinGrows(depth, more, rules, p);
    case TAnd(p) => CaptureWithinGrows(depth, more, rules, p);
    case TBehind(_, p) => CaptureWithinGrows(depth, more, rules, p);
    case _ =>
  }

  lemma {:induction false} LeastDepth(depth: nat, rules: seq<Tree>, t: Tree) returns (least: nat)
    requires CaptureWithin(depth, rules, t)
    ensures least <= depth && CaptureWithin(least, rules, t)
    ensures least > 0 ==> !CaptureWithin(least - 1, rules, t)
  {
    least := depth;
    while least > 0 && CaptureWithin(least - 1, rules, t)
      invariant least <= depth && CaptureWithin(least, rules, t)
    {
      least := least - 1;
    }
  }

  // The marks never hide a capture: a rule is only skipped while it is being
  // visited, and the shortest way to a capture does not pass a rule twice.
  lemma {:induction false} MarksHideNothing(depth: nat, rules: seq<Tree>, marks: seq<bool>, t: Tree)
    requires |marks| == |rules| && CaptureWithin(depth, rules, t)
    requires forall k :: 0 <= k < |rules| && marks[k] && depth > 0 ==> !CaptureWithin(depth - 1, rules, rules[k])
    ensures HasCaptures(rules, marks, t)
    decreases depth, t
  {
    match t
    case TCall(k) =>
      var least := LeastDepth(depth - 1, rules, rules[k]);
      forall j | 0 <= j < |rules| && marks[k := true][j] && least > 0
        ensures !CaptureWithin(least - 1, rules, rules[j])
      {
        if CaptureWithin(least - 1, rules, rules[j]) {
          CaptureWithinGrows(least - 1, depth - 1, rules, rules[j]);
        }
      }
      MarksHideNothing(least, rules, marks[k := true], rules[k]);
    case TGrammar(rs) => MarksHideNothing(depth, rs, NoMarks(|rs|), rs[0]);
    case TRep(p) => MarksHideNothing(depth, rules, marks, p);
    case TSeq(p1, p2) =>
      if CaptureWithin(depth, rules, p1) { MarksHideNothing(depth, rules, marks, p1); }
      else { MarksHideNothing(depth, rules, marks, p2); }
    case TChoice(p1, p2) =>
      if CaptureWithin(depth, rules, p1) { MarksHideNothing(depth, rules, marks, p1); }
      else { MarksHideNothing(depth, rules, marks, p2); }
    case TNot(p) => MarksHideNothing(depth, rules, marks, p);
    case TAnd(p) => MarksHideNothing(depth, rules, marks, p);
    case TBehind(_, p) => MarksHideNothing(depth, rules, marks, p);
    case _ =>
  }

  lemma {:induction false} NothingWithinNothingCaptured(fuel: nat, rules: seq<Tree>, t: Tree, s: seq<Byte>, i: nat)
    requires i <= |s| && !CaptureWithin(fuel, rules, t)
    ensures var r := Eval(fuel, rules, t, s, i); r.Matched? ==> r.caps == []
    decreases fuel, t
  {
    match t
    case TCall(k) =>
      if fuel > 0 && k < |rules| { NothingWithinNothingCaptured(fuel - 1, rules, rules[k], s, i); }
    case TGrammar(rs) => if |rs| > 0 { NothingWithinNothingCaptured(fuel, rs, rs[0], s, i); }
    case TRep(p) =>
      NothingWithinNothingCaptured(fuel, rules, p, s, i);
      var r := Eval(fuel, rules, p, s, i);
      if r.Matched? && fuel > 0 {
        if CaptureWithin(fuel - 1, rules, t) { CaptureWithinGrows(fuel - 1, fuel, rules, t); }
        NothingWithinNothingCaptured(fuel - 1, rules, t, s, r.end);
      }
    case TSeq(p1, p2) =>
      NothingWithinNothingCaptured(fuel, rules, p1, s, i);
      var r := Eval(fuel, rules, p1, s, i);
      if r.Matched? { NothingWithinNothingCaptured(fuel, rules, p2, s, r.end); }
    case TChoice(p1, p2) =>
      NothingWithinNothingCaptured(fuel, rules, p1, s, i);
      NothingWithinNothingCaptured(fuel, rules, p2, s, i);
    case TBehind(n, p) => if n <= i { NothingWithinNothingCaptured(fuel, rules, p, s, i - n); }
    case _ =>
  }

  // `hascaptures` false: no match ever adds a capture entry.
  lemma {:induction false} HasCapturesSound(fuel: nat, rules: seq<Tree>, t: Tree, s: seq<Byte>, i: nat)
    requires i <= |s| && !Captures(rules, t)
    ensures var r := Eval(fuel, rules, t, s, i); r.Matched? ==> r.caps == []
  {
    if CaptureWithin(fuel, rules, t) {
      MarksHideNothing(fuel, rules, NoMarks(|rules|), t);
    }
    NothingWithinNothingCaptured(fuel, rules, t, s, i);
  }
}
