// Trees as lptree.c keeps them: in an array of nodes.

module FlatTrees {
  // The first child of a node follows it, and the second one is found by its
  // relative position.

  import opened PegSyntax
  import opened Analysis
  import opened Trees

  // A node, with the fields that its tag gives a meaning to.
  datatype Node =
    | NChar(n: int)
    | NSet
    | NBytes(cs: Charset)
    | NAny
    | NTrue
    | NFalse
    | NRep
    | NSeq(ps: int)
    | NChoice(ps: int)
    | NNot
    | NAnd
    | NOpenCall(key: nat)
    | NRule(number: nat, ps: int)
    | NGrammar(n: int)
    | NBehind(n: int)
    | NCapture(cap: Kind, key: nat)

  // A set takes 32 bytes, 8 to a node.
  const SET_NODES := 4

  function SetPart(cs: Charset, k: int): Charset { set c | c in cs && c / 64 == k }

  function Flat(t: Tree): (r: seq<Node>)
    ensures r != []
    decreases t, 0
  {
    match t
    case TChar(c) => [NChar(c)]
    case TSet(cs) => [NSet] + seq(SET_NODES, k => NBytes(SetPart(cs, k)))
    case TAny => [NAny]
    case TTrue => [NTrue]
    case TFalse => [NFalse]
    case TRep(p) => [NRep] + Flat(p)
    case TSeq(p1, p2) => [NSeq(1 + |Flat(p1)|)] + Flat(p1) + Flat(p2)
    case TChoice(p1, p2) => [NChoice(1 + |Flat(p1)|)] + Flat(p1) + Flat(p2)
    case TNot(p) => [NNot] + Flat(p)
    case TAnd(p) => [NAnd] + Flat(p)
    case TCall(k) => [NOpenCall(k)]
    case TGrammar(rs) => [NGrammar(|rs|)] + FlatRules(rs, 0)
    case TBehind(n, p) => [NBehind(n)] + Flat(p)
    case TCapture(kind, key, p) => [NCapture(kind, key)] + Flat(p)
  }

  function FlatRules(rs: seq<Tree>, k: nat): seq<Node>
    decreases rs, |rs| - k
  {
    if k >= |rs| then [NTrue]
    else [NRule(k, 1 + |Flat(rs[k])|)] + Flat(rs[k]) + FlatRules(rs, k + 1)
  }

  // The tree `t` stands at node `i`.
  ghost predicate Stands(a: array<Node>, i: nat, t: Tree)
    reads a
  {
    i + |Flat(t)| <= a.Length && a[i..i + |Flat(t)|] == Flat(t)
  }

  // Nothing changed outside the nodes of a tree.
  twostate predicate Elsewhere(a: array<Node>, i: nat, n: nat)
    reads a
  {
    forall k :: 0 <= k < a.Length && (k < i || k >= i + n) ==> a[k] == old(a[k])
  }

  // -------------------------------------------------------------------------
  // Rotating a tree in place
  // -------------------------------------------------------------------------

  function OpNode(t: Tree, ps: int): Node { if t.TSeq? then NSeq(ps) else NChoice(ps) }

  function WithSecond(x: Node, ps: int): Node
    requires x.NSeq? || x.NChoice?
  {
    if x.NSeq? then NSeq(ps) else NChoice(ps)
  }

  function IsBinary(x: Node): bool { x.NSeq? || x.NChoice? }

  function SameTag(x: Node, y: Node): bool { (x.NSeq? && y.NSeq?) || (x.NChoice? && y.NChoice?) }

  lemma FlatOp(t: Tree)
    requires t.TSeq? || t.TChoice?
    ensures Flat(t) == [OpNode(t, 1 + |Flat(t.p1)|)] + Flat(t.p1) + Flat(t.p2)
  {
  }

  // The first node tells the kind of a tree.
  lemma FirstNode(t: Tree)
    ensures Flat(t)[0].NSeq? <==> t.TSeq?
    ensures Flat(t)[0].NChoice? <==> t.TChoice?
  {
  }

  // One rotation, node by node.
  lemma Shuffled(fa: seq<Node>, rest: seq<Node>, x: Node, y: Node, z: Node, w: Node, f: seq<Node>, g: seq<Node>)
    requires f == [x] + ([y] + fa + rest) && |g| == |f|
    requires g[0] == z && g[|fa| + 1] == w
    requires forall k :: 1 <= k < |fa| + 1 ==> g[k] == f[k + 1]
    requires forall k :: |fa| + 2 <= k < |g| ==> g[k] == f[k]
    ensures g == [z] + fa + ([w] + rest)
  {
    var h := [z] + fa + ([w] + rest);
    forall k | 0 <= k < |g| ensures g[k] == h[k] {
      if 1 <= k < |fa| + 1 {
        assert f[k + 1] == fa[k - 1];
      } else if k >= |fa| + 2 {
        assert f[k] == rest[k - 2 - |fa|];
      }
    }
  }

  // The nodes before and after a rotation.
  lemma RotationNodes(t: Tree)
    requires (t.TSeq? || t.TChoice?) && SameOp(t.p1, t)
    ensures var a, b, c := t.p1.p1, t.p1.p2, t.p2;
            var rest := Flat(b) + Flat(c);
            var n1, n11 := |Flat(t.p1)|, |Flat(a)|;
            && n1 == 1 + n11 + |Flat(b)|
            && Flat(t) == [OpNode(t, n1 + 1)] + ([OpNode(t, n11 + 1)] + Flat(a) + rest)
            && Flat(Op(t, a, Op(t, b, c))) == [OpNode(t, n11 + 1)] + Flat(a) + ([OpNode(t, n1 - n11)] + rest)
  {
    hide Flat;
    var a, b, c := t.p1.p1, t.p1.p2, t.p2;
    FlatOp(t);
    FlatOp(t.p1);
    FlatOp(Op(t, a, Op(t, b, c)));
    FlatOp(Op(t, b, c));
    var y := [OpNode(t, |Flat(a)| + 1)];
    assert (y + Flat(a) + Flat(b)) + Flat(c) == y + Flat(a) + (Flat(b) + Flat(c));
  }

  // The body of the loop below, on nodes alone.
  method MoveLeft(a: array<Node>, i: nat, ghost n: nat, ghost fa: seq<Node>, ghost rest: seq<Node>)
    requires i + n <= a.Length && n == |fa| + |rest| + 2 && IsBinary(a[i]) && IsBinary(a[i + 1])
    requires a[i..i + n] == [a[i]] + ([a[i + 1]] + fa + rest) && a[i + 1].ps == |fa| + 1 && a[i].ps > |fa| + 1
    modifies a
    ensures a[i..i + n] == [WithSecond(old(a[i]), |fa| + 1)] + fa + ([WithSecond(old(a[i]), old(a[i]).ps - |fa| - 1)] + rest)
    ensures Elsewhere(a, i, n)
  {
    ghost var f := a[i..i + n];
    var n1 := a[i].ps - 1;
    var n11 := a[i + 1].ps - 1;
    var n12 := n1 - n11 - 1;
    var op := a[i];
    forall k | i + 1 <= k < i + 1 + n11 { a[k] := a[k + 1]; }
    a[i] := WithSecond(op, n11 + 1);
    a[i + n11 + 1] := WithSecond(op, n12 + 1);
    ghost var g := a[i..i + n];
    assert forall k :: 0 <= k < n ==> f[k] == old(a[i + k]);
    assert forall k :: 0 <= k < n ==> g[k] == a[i + k];
    Shuffled(fa, rest, f[0], f[1], a[i], a[i + n11 + 1], f, g);
  }

  // One round of the loop.
  method RotateAt(a: array<Node>, i: nat, ghost t: Tree)
    requires (t.TSeq? || t.TChoice?) && SameOp(t.p1, t) && Stands(a, i, t)
    modifies a
    ensures |Flat(Op(t, t.p1.p1, Op(t, t.p1.p2, t.p2)))| == |Flat(t)|
    ensures Stands(a, i, Op(t, t.p1.p1, Op(t, t.p1.p2, t.p2))) && Elsewhere(a, i, |Flat(t)|)
  {
    hide Flat;
    RotationNodes(t);
    ghost var fa, rest := Flat(t.p1.p1), Flat(t.p1.p2) + Flat(t.p2);
    ghost var n := |fa| + |rest| + 2;
    assert n == |Flat(t)|;
    assert a[i] == a[i..i + n][0] && a[i + 1] == a[i..i + n][1];
    MoveLeft(a, i, n, fa, rest);
  }

  // `correctassociativity`
  method CorrectAssociativity(a: array<Node>, i: nat, ghost t: Tree)
    requires (t.TSeq? || t.TChoice?) && Stands(a, i, t)
    modifies a
    ensures |Flat(Rotated(t))| == |Flat(t)| && Stands(a, i, Rotated(t))
    ensures Elsewhere(a, i, |Flat(t)|)
  {
    hide Flat, Rotated, Stands;
    ghost var x, n := t, |Flat(t)|;
    OpAt(a, i, x);
    while SameTag(a[i + 1], a[i])
      invariant SameOp(x, t) && Rotated(x) == Rotated(t) && |Flat(x)| == n && Stands(a, i, x)
      invariant i + 1 < a.Length && SameTag(a[i + 1], a[i]) == SameOp(x.p1, x)
      invariant Elsewhere(a, i, n)
      decreases Size(x.p1)
    {
      RotateAt(a, i, x);
      RotateStep(x);
      x := Op(x, x.p1.p1, Op(x, x.p1.p2, x.p2));
      OpAt(a, i, x);
    }
    RotatedDone(x);
  }

  lemma OpAt(a: array<Node>, i: nat, x: Tree)
    requires (x.TSeq? || x.TChoice?) && Stands(a, i, x)
    ensures |Flat(x)| >= 3 && i + 1 < a.Length && a[i] == OpNode(x, 1 + |Flat(x.p1)|)
    ensures SameTag(a[i + 1], a[i]) == SameOp(x.p1, x)
  {
    var n := |Flat(x)|;
    assert a[i] == a[i..i + n][0] && a[i + 1] == a[i..i + n][1];
    FirstNode(x.p1);
  }

  lemma RotateStep(x: Tree)
    requires (x.TSeq? || x.TChoice?) && SameOp(x.p1, x)
    ensures Rotated(Op(x, x.p1.p1, Op(x, x.p1.p2, x.p2))) == Rotated(x)
  {
  }

  lemma RotatedDone(x: Tree)
    requires (x.TSeq? || x.TChoice?) && !SameOp(x.p1, x)
    ensures Rotated(x) == x
  {
  }

  // -------------------------------------------------------------------------
  // Fixing a whole tree
  // -------------------------------------------------------------------------

  predicate OneChild(x: Node) { x.NRep? || x.NNot? || x.NAnd? || x.NBehind? || x.NCapture? }

  function Child(t: Tree): Tree
    requires t.TRep? || t.TNot? || t.TAnd? || t.TBehind? || t.TCapture?
  {
    match t
    case TRep(p) => p
    case TNot(p) => p
    case TAnd(p) => p
    case TBehind(_, p) => p
    case TCapture(_, _, p) => p
  }

  // What the first node of a tree tells about it.
  lemma NodeKind(a: array<Node>, i: nat, t: Tree)
    requires Stands(a, i, t)
    ensures i < a.Length
    ensures a[i].NSeq? <==> t.TSeq?
    ensures a[i].NChoice? <==> t.TChoice?
    ensures OneChild(a[i]) <==> (t.TRep? || t.TNot? || t.TAnd? || t.TBehind? || t.TCapture?)
    ensures !IsBinary(a[i]) && !OneChild(a[i]) ==> Fixed(t) == t
  {
    assert a[i] == a[i..i + |Flat(t)|][0];
  }

  lemma OneChildAt(a: array<Node>, i: nat, t: Tree)
    requires Stands(a, i, t) && (t.TRep? || t.TNot? || t.TAnd? || t.TBehind? || t.TCapture?)
    ensures Flat(t) == [a[i]] + Flat(Child(t)) && Stands(a, i + 1, Child(t))
    ensures |Flat(Fixed(t))| == 1 + |Flat(Fixed(Child(t)))| && Flat(Fixed(t)) == [a[i]] + Flat(Fixed(Child(t)))
    ensures Size(Child(t)) < Size(t)
  {
    var f := a[i..i + |Flat(t)|];
    assert a[i] == f[0];
    assert f[1..] == Flat(Child(t));
    assert a[i + 1..i + |Flat(t)|] == f[1..];
  }

  lemma ChildrenAt(a: array<Node>, i: nat, x: Tree)
    requires (x.TSeq? || x.TChoice?) && Stands(a, i, x)
    ensures a[i] == OpNode(x, 1 + |Flat(x.p1)|) && Flat(x) == [a[i]] + Flat(x.p1) + Flat(x.p2)
    ensures Stands(a, i + 1, x.p1) && Stands(a, i + 1 + |Flat(x.p1)|, x.p2)
    ensures i + 1 + |Flat(x.p1)| + |Flat(x.p2)| <= a.Length
  {
    hide Flat;
    FlatOp(x);
    var n1, n2 := |Flat(x.p1)|, |Flat(x.p2)|;
    var f := a[i..i + |Flat(x)|];
    assert a[i] == f[0] && |f| == 1 + n1 + n2;
    assert f[1..1 + n1] == Flat(x.p1) && f[1 + n1..1 + n1 + n2] == Flat(x.p2);
    SliceOf(a, i, |f|, 1, 1 + n1);
    SliceOf(a, i, |f|, 1 + n1, 1 + n1 + n2);
  }

  lemma SliceOf(a: array<Node>, i: nat, n: nat, lo: nat, hi: nat)
    requires i + n <= a.Length && lo <= hi <= n
    ensures a[i..i + n][lo..hi] == a[i + lo..i + hi]
  {
    var f := a[i..i + n];
    forall k | 0 <= k < hi - lo ensures f[lo..hi][k] == a[i + lo..i + hi][k] {
      assert f[lo + k] == a[i + (lo + k)];
    }
  }

  lemma {:induction false} FixedLength(t: Tree)
    ensures |Flat(Fixed(t))| == |Flat(t)|
    decreases Size(t)
  {
    hide Rotated;
    match t
    case TSeq(_, _) => FixedLengthOp(t);
    case TChoice(_, _) => FixedLengthOp(t);
    case TRep(p) => FixedLength(p);
    case TNot(p) => FixedLength(p);
    case TAnd(p) => FixedLength(p);
    case TBehind(_, p) => FixedLength(p);
    case TCapture(_, _, p) => FixedLength(p);
    case _ =>
  }

  lemma {:induction false} FixedLengthOp(t: Tree)
    requires t.TSeq? || t.TChoice?
    ensures |Flat(Fixed(t))| == |Flat(t)|
    decreases Size(t), 0
  {
    hide Flat, Rotated;
    var r := Rotated(t);
    RotatedLength(t);
    FixedLength(r.p1);
    FixedLength(r.p2);
    FlatOp(r);
    FlatOp(Fixed(t));
  }

  lemma {:induction false} RotatedLength(t: Tree)
    requires t.TSeq? || t.TChoice?
    ensures |Flat(Rotated(t))| == |Flat(t)|
    decreases t.p1
  {
    hide Flat;
    if SameOp(t.p1, t) {
      RotationNodes(t);
      RotatedLength(Op(t, t.p1.p1, Op(t, t.p1.p2, t.p2)));
    }
  }

  // A tree stays where it is while others change.
  lemma StandsStill(a: array<Node>, was: seq<Node>, i: nat, t: Tree)
    requires |was| == a.Length && i + |Flat(t)| <= |was| && was[i..i + |Flat(t)|] == Flat(t)
    requires forall k :: i <= k < i + |Flat(t)| ==> a[k] == was[k]
    ensures Stands(a, i, t)
  {
    forall k | 0 <= k < |Flat(t)| ensures a[i + k] == Flat(t)[k] {
      assert was[i..i + |Flat(t)|][k] == was[i + k];
    }
    assert a[i..i + |Flat(t)|] == Flat(t);
  }

  lemma StandsIn(a: array<Node>, i: nat, t: Tree)
    requires Stands(a, i, t)
    ensures i + |Flat(t)| <= |a[..]| && a[..][i..i + |Flat(t)|] == Flat(t)
  {
    assert a[..][i..i + |Flat(t)|] == a[i..i + |Flat(t)|];
  }

  // `finalfix`, which also makes calls refer to their rules; a sub-grammar has
  // been fixed before.
  method FinalFix(a: array<Node>, i: nat, ghost t: Tree)
    requires Stands(a, i, t)
    modifies a
    ensures |Flat(Fixed(t))| == |Flat(t)| && Stands(a, i, Fixed(t)) && Elsewhere(a, i, |Flat(t)|)
    decreases Size(t)
  {
    hide Flat, Rotated, Fixed;
    NodeKind(a, i, t);
    FixedLength(t);
    if IsBinary(a[i]) {
      CorrectAssociativity(a, i, t);
      FixChildren(a, i, t, Rotated(t));
    } else if OneChild(a[i]) {
      OneChildAt(a, i, t);
      ghost var x := a[i];
      FinalFix(a, i + 1, Child(t));
      Joined(a, i, [x], Flat(Fixed(Child(t))), []);
      assert [x] + Flat(Fixed(Child(t))) + [] == [x] + Flat(Fixed(Child(t)));
    }
  }

  method FixChildren(a: array<Node>, i: nat, ghost t: Tree, ghost r: Tree)
    requires (t.TSeq? || t.TChoice?) && r == Rotated(t) && Stands(a, i, r)
    modifies a
    ensures |Flat(Fixed(t))| == |Flat(r)| && Stands(a, i, Fixed(t)) && Elsewhere(a, i, |Flat(r)|)
    decreases Size(t), 0
  {
    hide Flat, Rotated, Stands, Fixed;
    ChildrenAt(a, i, r);
    RotatedSmaller(t);
    FixedLength(r.p1);
    FixedLength(r.p2);
    ghost var n1, n2 := |Flat(r.p1)|, |Flat(r.p2)|;
    ghost var was := a[..];
    StandsIn(a, i + 1 + n1, r.p2);
    FinalFix(a, i + 1, r.p1);
    StandsStill(a, was, i + 1 + n1, r.p2);
    assert a[i].ps == 1 + n1;
    was := a[..];
    StandsIn(a, i + 1, Fixed(r.p1));
    FinalFix(a, i + a[i].ps, r.p2);
    StandsStill(a, was, i + 1, Fixed(r.p1));
    BothFixed(a, i, t, r);
  }

  lemma RotatedSmaller(t: Tree)
    requires t.TSeq? || t.TChoice?
    ensures var r := Rotated(t); Size(r.p1) < Size(t) && Size(r.p2) < Size(t)
  {
  }

  lemma FixedIs(t: Tree)
    requires t.TSeq? || t.TChoice?
    ensures var r := Rotated(t); Fixed(t) == Op(t, Fixed(r.p1), Fixed(r.p2))
  {
    hide Rotated;
  }

  lemma BothFixed(a: array<Node>, i: nat, t: Tree, r: Tree)
    requires (t.TSeq? || t.TChoice?) && r == Rotated(t) && i < a.Length && a[i] == OpNode(r, 1 + |Flat(r.p1)|)
    requires |Flat(Fixed(r.p1))| == |Flat(r.p1)| && |Flat(Fixed(r.p2))| == |Flat(r.p2)|
    requires Stands(a, i + 1, Fixed(r.p1)) && Stands(a, i + 1 + |Flat(r.p1)|, Fixed(r.p2))
    ensures |Flat(Fixed(t))| == |Flat(r)| && Stands(a, i, Fixed(t))
  {
    hide Flat, Rotated, Fixed;
    FlatOp(r);
    FixedIs(t);
    var f, g := Flat(Fixed(r.p1)), Flat(Fixed(r.p2));
    FlatOp(Op(t, Fixed(r.p1), Fixed(r.p2)));
    Joined(a, i, [a[i]], f, g);
    assert |[a[i]] + f + g| == 1 + |f| + |g|;
  }

  lemma Joined(a: array<Node>, i: nat, x: seq<Node>, f: seq<Node>, g: seq<Node>)
    requires |x| == 1 && i + 1 + |f| + |g| <= a.Length && a[i] == x[0]
    requires a[i + 1..i + 1 + |f|] == f && a[i + 1 + |f|..i + 1 + |f| + |g|] == g
    ensures a[i..i + 1 + |f| + |g|] == x + f + g
  {
  }

  // -------------------------------------------------------------------------
  // Reading a tree
  // -------------------------------------------------------------------------

  lemma NodeAt(a: array<Node>, i: nat, t: Tree)
    requires Stands(a, i, t)
    ensures i < a.Length && a[i] == Flat(t)[0]
  {
    assert a[i] == a[i..i + |Flat(t)|][0];
  }

  lemma SetAt(a: array<Node>, i: nat, cs: Charset)
    requires Stands(a, i, TSet(cs))
    ensures i + 4 < a.Length && a[i + 1].NBytes? && a[i + 2].NBytes? && a[i + 3].NBytes? && a[i + 4].NBytes?
    ensures cs == a[i + 1].cs + a[i + 2].cs + a[i + 3].cs + a[i + 4].cs
  {
    var f := a[i..i + |Flat(TSet(cs))|];
    assert f[1] == a[i + 1] && f[2] == a[i + 2] && f[3] == a[i + 3] && f[4] == a[i + 4];
    assert cs == SetPart(cs, 0) + SetPart(cs, 1) + SetPart(cs, 2) + SetPart(cs, 3);
  }

  // The rules from number `k` on stand at node `i`.
  ghost predicate RulesStand(a: array<Node>, i: nat, rs: seq<Tree>, k: nat)
    reads a
  {
    i + |FlatRules(rs, k)| <= a.Length && a[i..i + |FlatRules(rs, k)|] == FlatRules(rs, k)
  }

  lemma RulesAt(a: array<Node>, i: nat, rs: seq<Tree>)
    requires Stands(a, i, TGrammar(rs))
    ensures RulesStand(a, i + 1, rs, 0)
  {
    var f := a[i..i + |Flat(TGrammar(rs))|];
    assert f[1..] == FlatRules(rs, 0);
    assert a[i + 1..i + |f|] == f[1..];
  }

  lemma RuleAt(a: array<Node>, i: nat, rs: seq<Tree>, k: nat)
    requires RulesStand(a, i, rs, k) && k < |rs|
    ensures i < a.Length && a[i] == NRule(k, 1 + |Flat(rs[k])|)
    ensures Stands(a, i + 1, rs[k]) && RulesStand(a, i + 1 + |Flat(rs[k])|, rs, k + 1)
  {
    hide Flat;
    var n := |Flat(rs[k])|;
    var f := a[i..i + |FlatRules(rs, k)|];
    assert a[i] == f[0];
    assert f[1..1 + n] == Flat(rs[k]) && f[1 + n..] == FlatRules(rs, k + 1);
    SliceOf(a, i, |f|, 1, 1 + n);
    SliceOf(a, i, |f|, 1 + n, |f|);
  }

  // An array stands for one tree at most, and that can be read from it.
  method ReadTree(a: array<Node>, i: nat, ghost t: Tree) returns (r: Tree)
    requires Stands(a, i, t)
    ensures r == t
    decreases t, 1
  {
    hide Stands, RulesStand;
    NodeAt(a, i, t);
    if IsBinary(a[i]) {
      hide Flat;
      FirstNode(t);
      ChildrenAt(a, i, t);
      var p1 := ReadTree(a, i + 1, t.p1);
      var p2 := ReadTree(a, i + a[i].ps, t.p2);
      r := if a[i].NSeq? then TSeq(p1, p2) else TChoice(p1, p2);
    } else if OneChild(a[i]) {
      NodeKind(a, i, t);
      OneChildAt(a, i, t);
      var p := ReadTree(a, i + 1, Child(t));
      match a[i]
      case NRep => r := TRep(p);
      case NNot => r := TNot(p);
      case NAnd => r := TAnd(p);
      case NBehind(n) => r := TBehind(n, p);
      case NCapture(cap, key) => r := TCapture(cap, key, p);
    } else {
      r := ReadLeaf(a, i, t);
    }
  }

  method ReadLeaf(a: array<Node>, i: nat, ghost t: Tree) returns (r: Tree)
    requires Stands(a, i, t) && i < a.Length && a[i] == Flat(t)[0] && !IsBinary(a[i]) && !OneChild(a[i])
    ensures r == t
    decreases t, 0
  {
    hide Stands, RulesStand;
    match a[i]
    case NChar(n) => r := TChar(n);
    case NSet =>
      SetAt(a, i, t.cs);
      r := TSet(a[i + 1].cs + a[i + 2].cs + a[i + 3].cs + a[i + 4].cs);
    case NAny => r := TAny;
    case NTrue => r := TTrue;
    case NFalse => r := TFalse;
    case NOpenCall(key) => r := TCall(key);
    case NGrammar(n) =>
      RulesAt(a, i, t.rules);
      var rs := ReadRules(a, i + 1, n, t.rules, 0);
      r := TGrammar(rs);
  }

  method ReadRules(a: array<Node>, i: nat, n: nat, ghost rs: seq<Tree>, k: nat) returns (r: seq<Tree>)
    requires n == |rs| && k <= n && RulesStand(a, i, rs, k)
    ensures r == rs[k..]
    decreases rs, |rs| - k
  {
    hide Stands, RulesStand;
    if k == n { return []; }
    RuleAt(a, i, rs, k);
    var t := ReadTree(a, i + 1, rs[k]);
    var rest := ReadRules(a, i + a[i].ps, n, rs, k + 1);
    r := [t] + rest;
  }

  // -------------------------------------------------------------------------
  // Filling new trees
  // -------------------------------------------------------------------------

  lemma ChainNodes(leaves: seq<Tree>)
    requires leaves != []
    ensures |leaves| == 1 ==> Chain(leaves) == leaves[0]
    ensures |leaves| > 1 && |Flat(leaves[0])| == 1 ==>
              Flat(Chain(leaves)) == [NSeq(2)] + Flat(leaves[0]) + Flat(Chain(leaves[1..]))
  {
  }

  function Leaf(s: Option<seq<Byte>>, i: nat): Node
    requires s.Some? ==> i < |s.value|
  {
    if s.Some? then NChar(s.value[i]) else NAny
  }

  function Leaves(s: Option<seq<Byte>>, n: nat): (r: seq<Tree>)
    requires s.Some? ==> |s.value| == n
    ensures |r| == n
  {
    if s.Some? then Chars(s.value) else Anys(n)
  }

  lemma LeafAt(s: Option<seq<Byte>>, n: nat, i: nat)
    requires i < n && (s.Some? ==> |s.value| == n)
    ensures Flat(Leaves(s, n)[i]) == [Leaf(s, i)]
  {
  }

  lemma LeavesFrom(s: Option<seq<Byte>>, n: nat, i: nat)
    requires i < n && (s.Some? ==> |s.value| == n)
    ensures i + 1 == n ==> Flat(Chain(Leaves(s, n)[i..])) == [Leaf(s, i)]
    ensures i + 1 < n ==>
              Flat(Chain(Leaves(s, n)[i..])) == [NSeq(2), Leaf(s, i)] + Flat(Chain(Leaves(s, n)[i + 1..]))
  {
    hide Leaves, Chain;
    var leaves := Leaves(s, n);
    LeafAt(s, n, i);
    ChainNodes(leaves[i..]);
    assert leaves[i..][0] == leaves[i];
    if i + 1 < n {
      assert leaves[i..][1..] == leaves[i + 1..];
      assert [NSeq(2)] + [Leaf(s, i)] == [NSeq(2), Leaf(s, i)];
    }
  }

  // `fillseq`: with a string, characters, without one, any characters. The tree
  // has exactly the nodes it was given room for.
  method FillSeq(a: array<Node>, at: nat, n: nat, s: Option<seq<Byte>>)
    requires n > 0 && at + 2 * n - 1 <= a.Length && (s.Some? ==> |s.value| == n)
    modifies a
    ensures var t := Chain(Leaves(s, n));
            |Flat(t)| == 2 * n - 1 && Stands(a, at, t) && Elsewhere(a, at, 2 * n - 1)
  {
    hide Chain, Flat, Leaves;
    ghost var all := Flat(Chain(Leaves(s, n)));
    var i: nat := 0;
    var p: nat := at;
    assert Leaves(s, n)[0..] == Leaves(s, n);
    while i < n - 1
      invariant 0 <= i <= n - 1 && p == at + 2 * i
      invariant a[at..p] + Flat(Chain(Leaves(s, n)[i..])) == all
      invariant Elsewhere(a, at, 2 * i)
    {
      ghost var before := a[at..p];
      LeavesFrom(s, n, i);
      a[p] := NSeq(2);
      a[p + 1] := Leaf(s, i);
      assert a[at..p] == before;
      assert a[at..p + 2] == before + [NSeq(2), Leaf(s, i)];
      p := p + 2;
      i := i + 1;
    }
    LeavesFrom(s, n, i);
    ghost var before := a[at..p];
    a[p] := Leaf(s, i);
    assert a[at..p] == before;
    assert a[at..at + 2 * n - 1] == before + [Leaf(s, i)];
  }

  // Copying a tree, `memcpy`.
  method CopyTree(a: array<Node>, at: nat, src: array<Node>, size: nat)
    requires a != src && size <= src.Length && at + size <= a.Length
    modifies a
    ensures a[at..at + size] == src[..size] && Elsewhere(a, at, size)
  {
    forall k | at <= k < at + size { a[k] := src[k - at]; }
  }

  // `seqaux`: a sequence whose first part is a copy; returns where its second
  // part goes.
  method SeqAux(a: array<Node>, at: nat, src: array<Node>, size: nat) returns (rest: nat)
    requires a != src && size <= src.Length && at + 1 + size <= a.Length
    modifies a
    ensures rest == at + 1 + size && a[at..rest] == [NSeq(size + 1)] + src[..size] && Elsewhere(a, at, 1 + size)
  {
    a[at] := NSeq(size + 1);
    CopyTree(a, at + 1, src, size);
    rest := at + a[at].ps;
  }

  lemma {:induction false} AtLeastLength(t: Tree, n: nat)
    ensures |Flat(AtLeast(t, n))| == (n + 1) * (|Flat(t)| + 1)
    decreases n
  {
    hide Flat, AtLeast;
    AtLeastNodes(t, n);
    if n > 0 {
      AtLeastLength(t, n - 1);
      OneMore(n, |Flat(t)| + 1);
    }
  }

  lemma OneMore(n: nat, m: nat)
    ensures (n + 1) * m == n * m + m
  {
  }

  lemma AtLeastNodes(t: Tree, n: nat)
    ensures n > 0 ==> Flat(AtLeast(t, n)) == [NSeq(|Flat(t)| + 1)] + Flat(t) + Flat(AtLeast(t, n - 1))
    ensures n == 0 ==> Flat(AtLeast(t, n)) == [NRep] + Flat(t)
  {
  }

  // `lp_star` with a count that is not negative: an error if the body is
  // `nullable`, otherwise the new tree, which has exactly as many nodes as are
  // needed.
  method Star(src: array<Node>, ghost t: Tree, ghost depth: nat, nullable: bool, n: nat) returns (r: Option<array<Node>>)
    requires src[..] == Flat(t) && nullable == NullableSoFar(depth, t)
    ensures r.Some? <==> Trees.Star(depth, t, n).Some?
    ensures r.Some? ==> fresh(r.value) && r.value[..] == Flat(Trees.Star(depth, t, n).value)
  {
    hide Flat, AtLeast, NullableSoFar;
    if nullable { return None; }
    var a := StarAtLeast(src, t, n);
    r := Some(a);
  }

  method StarAtLeast(src: array<Node>, ghost t: Tree, n: nat) returns (a: array<Node>)
    requires src[..] == Flat(t)
    ensures fresh(a) && a[..] == Flat(AtLeast(t, n))
  {
    hide Flat, AtLeast;
    var size := src.Length;
    a := new Node[(n + 1) * (size + 1)](_ => NTrue);
    AtLeastLength(t, n);
    ghost var all := Flat(AtLeast(t, n));
    var at: nat := 0;
    var k: nat := n;
    assert a[..0] + all == all;
    while k > 0
      invariant k <= n && |all| == a.Length && Begun(a, at, Flat(AtLeast(t, k)), all)
    {
      AtLeastNodes(t, k);
      at := LeastLevel(a, at, src, size, t, Flat(AtLeast(t, k - 1)), all);
      k := k - 1;
    }
    AtLeastNodes(t, 0);
    LastLoop(a, at, src, size, t, all);
  }

  // The repetition itself.
  method LastLoop(a: array<Node>, at: nat, src: array<Node>, size: nat, ghost t: Tree, ghost all: seq<Node>)
    requires a != src && size == src.Length && src[..] == Flat(t) && Begun(a, at, [NRep] + Flat(t), all)
    modifies a
    ensures a[..] == all
  {
    hide Flat;
    ghost var before := a[..at];
    a[at] := NRep;
    CopyTree(a, at + 1, src, size);
    assert src[..size] == Flat(t) && a[..at] == before;
    assert a[at..] == [NRep] + Flat(t);
    assert a[..] == a[..at] + a[at..];
  }

  // The nodes in front of `at` are there; `part` is what is missing.
  ghost predicate Begun(a: array<Node>, at: nat, part: seq<Node>, all: seq<Node>)
    reads a
  {
    at + |part| == a.Length && a[..at] + part == all
  }

  method LeastLevel(a: array<Node>, at: nat, src: array<Node>, size: nat, ghost t: Tree, ghost rest: seq<Node>,
                    ghost all: seq<Node>) returns (next: nat)
    requires a != src && size == src.Length && src[..] == Flat(t)
    requires Begun(a, at, [NSeq(|Flat(t)| + 1)] + Flat(t) + rest, all)
    modifies a
    ensures Begun(a, next, rest, all)
  {
    hide Flat;
    ghost var before := a[..at];
    next := SeqAux(a, at, src, size);
    assert src[..size] == Flat(t) && a[..at] == before;
    assert a[..next] == before + ([NSeq(size + 1)] + Flat(t));
    assert before + ([NSeq(size + 1)] + Flat(t)) + rest == before + ([NSeq(size + 1)] + Flat(t) + rest);
  }

  lemma {:induction false} AtMostLength(t: Tree, n: nat)
    requires n > 0
    ensures |Flat(AtMost(t, n))| == n * (|Flat(t)| + 3) - 1
    decreases n
  {
    hide Flat, AtMost;
    AtMostNodes(t, n);
    if n > 1 {
      AtMostLength(t, n - 1);
      OneMore(n - 1, |Flat(t)| + 3);
    }
  }

  lemma AtMostNodes(t: Tree, n: nat)
    requires n > 0
    ensures n > 1 ==>
              Flat(AtMost(t, n)) == [NChoice(|Flat(t)| + 2 + |Flat(AtMost(t, n - 1))|)] +
                                    ([NSeq(|Flat(t)| + 1)] + Flat(t) + Flat(AtMost(t, n - 1))) + [NTrue]
    ensures n == 1 ==> Flat(AtMost(t, n)) == [NChoice(|Flat(t)| + 1)] + Flat(t) + [NTrue]
  {
    hide Flat;
    if n > 1 {
      var rest := AtMost(t, n - 1);
      assert AtMost(t, n) == TChoice(TSeq(t, rest), TTrue);
      OptionNodes(TSeq(t, rest));
      SeqNodes(t, rest);
    } else {
      OptionNodes(t);
    }
  }

  lemma OptionNodes(t: Tree)
    ensures Flat(TChoice(t, TTrue)) == [NChoice(|Flat(t)| + 1)] + Flat(t) + [NTrue]
  {
    hide Flat;
    FlatOp(TChoice(t, TTrue));
    TrueNode();
  }

  lemma TrueNode()
    ensures Flat(TTrue) == [NTrue]
  {
  }

  lemma SeqNodes(t: Tree, r: Tree)
    ensures Flat(TSeq(t, r)) == [NSeq(|Flat(t)| + 1)] + Flat(t) + Flat(r)
  {
    hide Flat;
    FlatOp(TSeq(t, r));
  }

  // `lp_star` with a negative count: again every node is used.
  method StarAtMost(src: array<Node>, ghost t: Tree, n: nat) returns (a: array<Node>)
    requires src[..] == Flat(t) && n > 0
    ensures fresh(a) && a[..] == Flat(AtMost(t, n))
  {
    hide Flat, AtMost;
    var size := src.Length;
    AtMostLength(t, n);
    a := new Node[n * (size + 3) - 1](_ => NTrue);
    ghost var all := Flat(AtMost(t, n));
    var at: nat := 0;
    var k: nat := n;
    while k > 1
      invariant 0 < k <= n && |all| == a.Length && Open(a, at, Flat(AtMost(t, k)), all)
    {
      AtMostLength(t, k);
      at := MostLevel(a, at, src, size, t, k, all);
      k := k - 1;
    }
    AtMostNodes(t, 1);
    LastLevel(a, at, src, size, t, all);
  }

  // All nodes of the tree are there but for the part that stands at `at`.
  ghost predicate Open(a: array<Node>, at: nat, part: seq<Node>, all: seq<Node>)
    reads a
  {
    at + |part| <= a.Length && a[..at] + part + a[at + |part|..] == all
  }

  // One level of it: a choice, its empty second part, and a sequence.
  method MostLevel(a: array<Node>, at: nat, src: array<Node>, size: nat, ghost t: Tree, k: nat, ghost all: seq<Node>)
    returns (next: nat)
    requires a != src && size == src.Length && src[..] == Flat(t) && k > 1
    requires |Flat(AtMost(t, k))| == k * (size + 3) - 1 && Open(a, at, Flat(AtMost(t, k)), all)
    modifies a
    ensures Open(a, next, Flat(AtMost(t, k - 1)), all)
  {
    hide Flat, AtMost;
    AtMostNodes(t, k);
    ghost var inner := Flat(AtMost(t, k - 1));
    ghost var low, high := a[..at], a[at + size + |inner| + 3..];
    var ps := k * (size + 3) - 2;
    assert ps == size + 2 + |inner|;
    a[at] := NChoice(ps);
    a[at + ps] := NTrue;
    next := SeqAux(a, at + 1, src, size);
    assert a[at] == NChoice(ps) && a[next + |inner|] == NTrue;
    assert src[..size] == Flat(t);
    Levels(low, high, NChoice(ps), [NSeq(size + 1)] + Flat(t), inner, a[..], at, next);
    assert a[..][..next] == a[..next] && a[..][next + |inner|..] == a[next + |inner|..];
  }

  lemma Levels(low: seq<Node>, high: seq<Node>, x: Node, y: seq<Node>, inner: seq<Node>, g: seq<Node>, at: nat, next: nat)
    requires |low| == at && next == at + 1 + |y| && |g| == next + |inner| + 1 + |high|
    requires g[..at] == low && g[at] == x && g[at + 1..next] == y && g[next + |inner|] == NTrue
    requires g[next + |inner| + 1..] == high
    ensures g[..next] + inner + g[next + |inner|..] == low + ([x] + (y + inner) + [NTrue]) + high
  {
    assert g[..next] == low + [x] + y;
    assert g[next + |inner|..] == [NTrue] + high;
  }

  // The innermost level has no sequence.
  method LastLevel(a: array<Node>, at: nat, src: array<Node>, size: nat, ghost t: Tree, ghost all: seq<Node>)
    requires a != src && size == src.Length && src[..] == Flat(t)
    requires Open(a, at, [NChoice(size + 1)] + Flat(t) + [NTrue], all)
    modifies a
    ensures a[..] == all
  {
    hide Flat;
    ghost var low, high := a[..at], a[at + size + 2..];
    ghost var y := Flat(t);
    a[at] := NChoice(size + 1);
    a[at + size + 1] := NTrue;
    CopyTree(a, at + 1, src, size);
    assert src[..size] == y && a[..at] == low && a[at + size + 2..] == high;
    Assembled(low, high, NChoice(size + 1), y, a[..], at);
  }

  lemma Assembled(low: seq<Node>, high: seq<Node>, x: Node, y: seq<Node>, g: seq<Node>, at: nat)
    requires |low| == at && |g| == at + 1 + |y| + 1 + |high|
    requires g[..at] == low && g[at] == x && g[at + 1..at + 1 + |y|] == y && g[at + 1 + |y|] == NTrue
    requires g[at + 2 + |y|..] == high
    ensures g == low + ([x] + y + [NTrue]) + high
  {
    Levels(low, high, x, y, [], g, at, at + 1 + |y|);
    assert y + [] == y && g[..at + 1 + |y|] + [] == g[..at + 1 + |y|];
  }
}
