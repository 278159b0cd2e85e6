// Pattern trees and what they mean as parsing expressions.
//
// A tree is the one LPeg builds in lptree.c, with references resolved: a call
// names a rule of the innermost enclosing grammar by its number.

module PegSyntax {

  type Byte = b: int | 0 <= b < 256

  type Charset = set<Byte>

  predicate IsByte(b: int) { 0 <= b < 256 }

  // The full character set.
  function AllBytes(): (cs: Charset)
    ensures forall b: Byte :: b in cs
  {
    assert forall b: Byte :: IsByte(b);
    set b: int | 0 <= b < 256 && IsByte(b)
  }

  // Capture kinds fit in four bits of an instruction.
  type Kind = k: int | 0 <= k < 16

  datatype Tree =
    | TChar(c: Byte)
    | TSet(cs: Charset)
    | TAny
    | TTrue
    | TFalse
    | TRep(p: Tree)
    | TSeq(p1: Tree, p2: Tree)
    | TChoice(p1: Tree, p2: Tree)
    | TNot(p: Tree)
    | TAnd(p: Tree)
    | TCall(rule: nat)
    | TGrammar(rules: seq<Tree>)
    | TBehind(n: nat, p: Tree)
    | TCapture(kind: Kind, key: nat, p: Tree)

  // One entry of the capture list: `siz` is 0 while the capture is open, 1 for
  // a closing entry, and otherwise one more than the length of a full capture.
  datatype Capture = Capture(s: nat, idx: nat, kind: Kind, siz: nat)

  const C_CLOSE: Kind := 0
  const UCHAR_MAX := 255

  // The entries left by a capture around a body that ran from `i` to `j` and
  // left the entries `inner`: one full entry when nothing is nested and the
  // length fits, an opening and a closing entry otherwise.
  function Enclose(kind: Kind, key: nat, i: nat, j: nat, inner: seq<Capture>): seq<Capture>
    requires i <= j
  {
    if inner == [] && j - i < UCHAR_MAX then
      [Capture(i, key, kind, j - i + 1)]
    else
      [Capture(i, key, kind, 0)] + inner + [Capture(j, 0, C_CLOSE, 1)]
  }

  datatype Outcome =
    | Diverged
    | NoMatch
    | Matched(end: nat, caps: seq<Capture>)

  // The set of characters accepted by a one-character pattern.
  datatype Option<+T> = None | Some(value: T)

  function ToCharset(t: Tree): Option<Charset> {
    match t
    case TSet(cs) => Some(cs)
    case TChar(c) => Some({c})
    case TAny => Some(AllBytes())
    case _ => None
  }

  // The parsing expression `t`, in the scope of `rules`, matched against `s`
  // at position `i`. Calls and further rounds of a repetition use up `fuel`;
  // `Diverged` says there was not enough of it.
  function Eval(fuel: nat, rules: seq<Tree>, t: Tree, s: seq<Byte>, i: nat): (r: Outcome)
    requires i <= |s|
    ensures r.Matched? ==> i <= r.end <= |s|
    decreases fuel, t
  {
    match t
    case TChar(c) => if i < |s| && s[i] == c then Matched(i + 1, []) else NoMatch
    case TSet(cs) => if i < |s| && s[i] in cs then Matched(i + 1, []) else NoMatch
    case TAny => if i < |s| then Matched(i + 1, []) else NoMatch
    case TTrue => Matched(i, [])
    case TFalse => NoMatch
    case TRep(p) =>
      (match Eval(fuel, rules, p, s, i)
       case Diverged => Diverged
       case NoMatch => Matched(i, [])
       case Matched(j, c1) =>
         if fuel == 0 then Diverged else
         match Eval(fuel - 1, rules, t, s, j)
         case Matched(k, c2) => Matched(k, c1 + c2)
         case other => other)
    case TSeq(p1, p2) =>
      (match Eval(fuel, rules, p1, s, i)
       case Matched(j, c1) =>
         (match Eval(fuel, rules, p2, s, j)
          case Matched(k, c2) => Matched(k, c1 + c2)
          case other => other)
       case other => other)
    case TChoice(p1, p2) =>
      (match Eval(fuel, rules, p1, s, i)
       case NoMatch => Eval(fuel, rules, p2, s, i)
       case other => other)
    case TNot(p) =>
      (match Eval(fuel, rules, p, s, i)
       case Diverged => Diverged
       case NoMatch => Matched(i, [])
       case Matched(_, _) => NoMatch)
    case TAnd(p) =>
      (match Eval(fuel, rules, p, s, i)
       case Matched(_, _) => Matched(i, [])
       case other => other)
    case TCall(k) =>
      if fuel == 0 || k >= |rules| then Diverged else Eval(fuel - 1, rules, rules[k], s, i)
    case TGrammar(rs) =>
      if |rs| == 0 then Diverged else Eval(fuel, rs, rs[0], s, i)
    case TBehind(n, p) =>
      if n > i then NoMatch else
      (match Eval(fuel, rules, p, s, i - n)
       case Matched(_, c1) => Matched(i, c1)
       case other => other)
    case TCapture(kind, key, p) =>
      (match Eval(fuel, rules, p, s, i)
       case Matched(j, c1) => Matched(j, Enclose(kind, key, i, j, c1))
       case other => other)
  }

  // More fuel never changes an answer.
  lemma {:induction false} MoreFuel(fuel: nat, more: nat, rules: seq<Tree>, t: Tree, s: seq<Byte>, i: nat)
    requires i <= |s| && fuel <= more
    ensures !Eval(fuel, rules, t, s, i).Diverged? ==> Eval(more, rules, t, s, i) == Eval(fuel, rules, t, s, i)
    decreases fuel, t
  {
    match t
    case TRep(p) =>
      MoreFuel(fuel, more, rules, p, s, i);
      var r := Eval(fuel, rules, p, s, i);
      if r.Matched? && fuel > 0 { MoreFuel(fuel - 1, more - 1, rules, t, s, r.end); }
    case TSeq(p1, p2) =>
      MoreFuel(fuel, more, rules, p1, s, i);
      var r := Eval(fuel, rules, p1, s, i);
      if r.Matched? { MoreFuel(fuel, more, rules, p2, s, r.end); }
    case TChoice(p1, p2) =>
      MoreFuel(fuel, more, rules, p1, s, i);
      MoreFuel(fuel, more, rules, p2, s, i);
    case TNot(p) => MoreFuel(fuel, more, rules, p, s, i);
    case TAnd(p) => MoreFuel(fuel, more, rules, p, s, i);
    case TCall(k) =>
      if fuel > 0 && k < |rules| { MoreFuel(fuel - 1, more - 1, rules, rules[k], s, i); }
    case TGrammar(rs) => if |rs| > 0 { MoreFuel(fuel, more, rs, rs[0], s, i); }
    case TBehind(n, p) => if n <= i { MoreFuel(fuel, more, rules, p, s, i - n); }
    case TCapture(_, _, p) => MoreFuel(fuel, more, rules, p, s, i);
    case _ =>
  }

  predicate LastClosed(caps: seq<Capture>) { caps != [] ==> caps[|caps| - 1].siz != 0 }

  lemma LastClosedConcat(a: seq<Capture>, b: seq<Capture>)
    requires LastClosed(a) && LastClosed(b)
    ensures LastClosed(a + b)
  {
  }

  lemma EncloseCloses(kind: Kind, key: nat, i: nat, j: nat, inner: seq<Capture>)
    requires i <= j
    ensures LastClosed(Enclose(kind, key, i, j, inner))
  {
  }

  // A match never leaves a dangling open entry at the end of its capture list.
  lemma {:induction false} LastCaptureClosed(fuel: nat, rules: seq<Tree>, t: Tree, s: seq<Byte>, i: nat)
    requires i <= |s|
    ensures var r := Eval(fuel, rules, t, s, i);
            r.Matched? ==> LastClosed(r.caps)
    decreases fuel, t
  {
    hide LastClosed, Enclose;
    match t
    case TRep(p) =>
      LastCaptureClosed(fuel, rules, p, s, i);
      var r := Eval(fuel, rules, p, s, i);
      NothingClosed();
      if r.Matched? && fuel > 0 {
        LastCaptureClosed(fuel - 1, rules, t, s, r.end);
        var m := Eval(fuel - 1, rules, t, s, r.end);
        if m.Matched? { LastClosedConcat(r.caps, m.caps); }
      }
    case TSeq(p1, p2) =>
      LastCaptureClosed(fuel, rules, p1, s, i);
      var r := Eval(fuel, rules, p1, s, i);
      if r.Matched? {
        LastCaptureClosed(fuel, rules, p2, s, r.end);
        var m := Eval(fuel, rules, p2, s, r.end);
        if m.Matched? { LastClosedConcat(r.caps, m.caps); }
      }
    case TChoice(p1, p2) =>
      LastCaptureClosed(fuel, rules, p1, s, i);
      LastCaptureClosed(fuel, rules, p2, s, i);
    case TCall(k) =>
      if fuel > 0 && k < |rules| { LastCaptureClosed(fuel - 1, rules, rules[k], s, i); }
    case TGrammar(rs) => if |rs| > 0 { LastCaptureClosed(fuel, rs, rs[0], s, i); }
    case TBehind(n, p) => if n <= i { LastCaptureClosed(fuel, rules, p, s, i - n); }
    case TCapture(kind, key, p) =>
      var r := Eval(fuel, rules, p, s, i);
      if r.Matched? { EncloseCloses(kind, key, i, r.end, r.caps); }
    case _ => NothingClosed();
  }

  lemma NothingClosed()
    ensures LastClosed([])
  {
  }
}
