// The compiler as a whole.

module Compiler {
  // `compile`, and what running its code comes to.

  import opened PegSyntax
  import opened Vm
  import opened CodeGen
  import opened CompilerCorrect
  import opened Peephole
  import opened Termination
  import opened Depths

  function CodeOf(t: Tree): seq<Slot> {
    Code(Depth(t), [], t, false, NoTest, AllBytes()) + [Inst(IEnd, 0, 0)]
  }

  // `compile`
  function Compile(t: Tree): seq<Slot> { PeepholeFrom(CodeOf(t), 0) }

  // How the machine reports an outcome.
  function Report(r: Outcome): State
    requires !r.Diverged?
  {
    if r.Matched? then Ended(r.end, r.caps) else GaveUp
  }

  lemma {:induction false} CodeOfCorrect(t: Tree, s: seq<Byte>, i: nat, fuel: nat) returns (n: nat)
    requires i <= |s| && WellFormed([], t) && !Eval(fuel, [], t, s, i).Diverged?
    ensures Run(Machine(CodeOf(t), s), Start(i), n) == Report(Eval(fuel, [], t, s, i))
  {
    hide Joins, FailsOnto, Code, Eval, Run, WellFormed;
    var m := Machine(CodeOf(t), s);
    var sc := Scope(Depth(t), [], []);
    var c := CodeIn(sc, t, false, NoTest, AllBytes());
    var stack := Push(Back(GIVEUP, i, 0), Bottom);
    var r := Eval(fuel, [], t, s, i);
    LoadedWhole(m.code, c, Inst(IEnd, 0, 0));
    NoTestGuards(m, i);
    Simulates(m, sc, fuel, t, false, NoTest, AllBytes(), 0, i, stack, []);
    if r.Matched? {
      DeliversFull(m, Start(i), |c|, stack, [], r);
      assert [] + r.caps == r.caps;
      var at := Running(|c|, r.end, stack, r.caps);
      JoinsStep(m, at);
      JoinsTrans(m, Start(i), at, Ended(r.end, r.caps));
    } else {
      DeliversNoMatch(m, Start(i), |c|, stack, [], AllBytes());
      FailsToEntry(m, Start(i), GIVEUP, i, Bottom, []);
      JoinsStep(m, Running(GIVEUP, i, Bottom, []));
      JoinsTrans(m, Start(i), Running(GIVEUP, i, Bottom, []), GaveUp);
    }
    n := JoinsFinal(m, Start(i), Report(r));
  }

  // Outside grammars there are no open calls to resolve.
  lemma LoadedWhole(code: seq<Slot>, c: seq<Slot>, end: Slot)
    requires code == c + [end]
    ensures Loaded(code, 0, c, [])
  {
  }

  // The compiled code, run from any position of any subject, reports exactly
  // what the pattern means there: no match, or where the match ends and which
  // captures it makes.
  lemma {:induction false} CompileCorrect(t: Tree, s: seq<Byte>, i: nat, fuel: nat) returns (n: nat)
    requires i <= |s| && WellFormed([], t) && !Eval(fuel, [], t, s, i).Diverged?
    ensures Run(Machine(Compile(t), s), Start(i), n) == Report(Eval(fuel, [], t, s, i))
  {
    var k := CodeOfCorrect(t, s, i, fuel);
    n := PeepholePreserves(CodeOf(t), 0, s, Start(i), k);
  }

  // For a pattern that passes the honest checks there is always such a report.
  lemma {:induction false} CompileTotal(t: Tree, s: seq<Byte>, i: nat) returns (fuel: nat, n: nat)
    requires i <= |s| && WellFormed([], t) && AcceptedPattern(true, Below(t), t)
    ensures !Eval(fuel, [], t, s, i).Diverged?
    ensures Run(Machine(Compile(t), s), Start(i), n) == Report(Eval(fuel, [], t, s, i))
  {
    fuel := AcceptedHalts(Below(t), t, s, i);
    n := CompileCorrect(t, s, i, fuel);
  }

  // So there is for a pattern that passes the checks of the source, if these
  // meet no sub-grammar whose answer they get wrong.
  lemma FairTotal(t: Tree, s: seq<Byte>, i: nat) returns (fuel: nat, n: nat)
    requires i <= |s| && WellFormed([], t) && AcceptedPattern(false, Below(t), t) && FairPattern(Below(t), t)
    ensures !Eval(fuel, [], t, s, i).Diverged?
    ensures Run(Machine(Compile(t), s), Start(i), n) == Report(Eval(fuel, [], t, s, i))
  {
    FairAccepted(Below(t), t);
    fuel, n := CompileTotal(t, s, i);
  }
}
