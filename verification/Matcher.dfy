// `match` of lpvm.c.

module Matcher {
  // The loop that runs the code, with its growing stack.

  import opened PegSyntax
  import opened Vm

  const INITBACK := 400

  datatype MatchResult = Success(end: nat, caps: seq<Capture>) | Failure | StackOverflow

  // The stack array as a list, its last element on top.
  function ListOf(stack: seq<Entry>): Stack {
    if stack == [] then Bottom else Push(stack[|stack| - 1], ListOf(stack[..|stack| - 1]))
  }

  function Height(stack: Stack): nat {
    match stack
    case Bottom => 0
    case Push(_, rest) => 1 + Height(rest)
  }

  lemma {:induction false} ListHeight(stack: seq<Entry>)
    ensures Height(ListOf(stack)) == |stack|
  {
    if stack != [] { ListHeight(stack[..|stack| - 1]); }
  }

  lemma ListPush(stack: seq<Entry>, e: Entry)
    ensures ListOf(stack + [e]) == Push(e, ListOf(stack))
  {
    assert (stack + [e])[..|stack|] == stack;
  }

  function StackOf(st: State): Stack {
    match st
    case Running(_, _, stack, _) => stack
    case Failing(stack, _) => stack
    case _ => Bottom
  }

  // The most entries the stack may come to hold.
  function Limit(max: nat): nat { if max > INITBACK then max else INITBACK }

  // Some state on the way to the end needs more than that.
  ghost predicate Overflows(m: Machine, start: State, steps: nat, max: nat) {
    exists k: nat :: k <= steps && Height(StackOf(Run(m, start, k))) > Limit(max)
  }

  // What one instruction does to the registers; `fail` sends the machine to its
  // label `fail`.
  datatype Effect = Effect(fail: bool, pc: int, s: nat, stack: seq<Entry>, caps: seq<Capture>)

  ghost predicate EffectIs(e: Effect, st: State) {
    if e.fail then st == Failing(ListOf(e.stack), e.caps)
    else st == Running(e.pc, e.s, ListOf(e.stack), e.caps)
  }

  // Instructions that read the subject or record captures.
  method Read(m: Machine, pc: int, s: nat, stack: seq<Entry>, caps: seq<Capture>) returns (e: Effect)
    requires HasInst(m.code, pc) && s <= |m.s| && pc != GIVEUP
    requires !Step(m, Running(pc, s, ListOf(stack), caps)).Stuck?
    requires m.code[pc].op in {IAny, IChar, ISet, ISpan, IBehind, IFullCapture, IOpenCapture, ICloseCapture}
    ensures e.stack == stack
    ensures EffectIs(e, Step(m, Running(pc, s, ListOf(stack), caps)))
  {
    hide ListOf, InBuffer, CloseCapture;
    var Inst(op, aux, key) := m.code[pc];
    e := Effect(true, pc, s, stack, caps);
    match op {
      case IAny =>
        if s < |m.s| { e := Effect(false, pc + 1, s + 1, stack, caps); }
      case IChar =>
        if s < |m.s| && m.s[s] == aux { e := Effect(false, pc + 1, s + 1, stack, caps); }
      case ISet =>
        if s < |m.s| && InBuffer(m.code, pc + 1, m.s[s]) {
          e := Effect(false, pc + CHARSET_INST_SIZE, s + 1, stack, caps);
        }
      case ISpan =>
        var j := s;
        while j < |m.s| && InBuffer(m.code, pc + 1, m.s[j])
          invariant s <= j <= |m.s|
          invariant SpanEnd(m.code, pc + 1, m.s, j) == SpanEnd(m.code, pc + 1, m.s, s)
        {
          j := j + 1;
        }
        e := Effect(false, pc + CHARSET_INST_SIZE, j, stack, caps);
      case IBehind =>
        if aux <= s { e := Effect(false, pc + 1, s - aux, stack, caps); }
      case IFullCapture =>
        e := Effect(false, pc + 1, s, stack, caps + [Capture(s - aux / 16, key, aux % 16, aux / 16 + 1)]);
      case IOpenCapture =>
        e := Effect(false, pc + 1, s, stack, caps + [Capture(s, key, aux % 16, 0)]);
      case ICloseCapture =>
        e := Effect(false, pc + 1, s, stack, CloseCapture(caps, s, key, aux % 16));
    }
  }

  // Instructions that move the program counter or work on the stack.
  method Transfer(m: Machine, pc: int, s: nat, stack: seq<Entry>, caps: seq<Capture>) returns (e: Effect)
    requires HasInst(m.code, pc) && s <= |m.s| && pc != GIVEUP
    requires !Step(m, Running(pc, s, ListOf(stack), caps)).Stuck?
    requires m.code[pc].op in {IRet, ITestAny, ITestChar, ITestSet, IJmp, IChoice, ICall, ICommit, IPartialCommit,
                               IBackCommit, IFailTwice, IFail}
    ensures |e.stack| <= |stack| + (if m.code[pc].op in {IChoice, ICall} then 1 else 0)
    ensures m.code[pc].op in {IChoice, ICall} ==> |e.stack| == |stack| + 1
    ensures EffectIs(e, Step(m, Running(pc, s, ListOf(stack), caps)))
  {
    hide InBuffer, CloseCapture;
    var op := m.code[pc].op;
    var target := if Labelled(op) then pc + m.code[pc + 1].off else pc;
    ghost var popped := if stack == [] then [] else stack[..|stack| - 1];
    match op {
      case IRet =>
        e := Effect(false, stack[|stack| - 1].p, s, stack[..|stack| - 1], caps);
      case ITestAny =>
        e := Effect(false, if s < |m.s| then pc + 2 else target, s, stack, caps);
      case ITestChar =>
        e := Effect(false, if s < |m.s| && m.s[s] == m.code[pc].aux then pc + 2 else target, s, stack, caps);
      case ITestSet =>
        var inside := s < |m.s| && InBuffer(m.code, pc + 2, m.s[s]);
        e := Effect(false, if inside then pc + 1 + CHARSET_INST_SIZE else target, s, stack, caps);
      case IJmp =>
        e := Effect(false, target, s, stack, caps);
      case IChoice =>
        ListPush(stack, Back(target, s, |caps|));
        e := Effect(false, pc + 2, s, stack + [Back(target, s, |caps|)], caps);
      case ICall =>
        ListPush(stack, Ret(pc + 2));
        e := Effect(false, target, s, stack + [Ret(pc + 2)], caps);
      case ICommit =>
        e := Effect(false, target, s, stack[..|stack| - 1], caps);
      case IPartialCommit =>
        var top := Back(stack[|stack| - 1].p, s, |caps|);
        ListPush(popped, top);
        e := Effect(false, target, s, stack[..|stack| - 1] + [top], caps);
      case IBackCommit =>
        var top := stack[|stack| - 1];
        e := Effect(false, target, top.s, stack[..|stack| - 1], caps[..top.caplevel]);
      case IFailTwice =>
        e := Effect(true, pc, s, stack[..|stack| - 1], caps);
      case IFail =>
        e := Effect(true, pc, s, stack, caps);
    }
  }

  // How a result reads as the state the machine ends in.
  function EndOf(r: MatchResult): State
    requires !r.StackOverflow?
  {
    if r.Success? then Ended(r.end, r.caps) else GaveUp
  }

  lemma RunStep(m: Machine, start: State, k: nat)
    ensures Run(m, start, k + 1) == Step(m, Run(m, start, k))
  {
    hide Step;
    RunAdds(m, start, k, 1);
    assert Run(m, Step(m, Run(m, start, k)), 0) == Step(m, Run(m, start, k));
  }

  // Up to the end the machine is never stuck, and before it never final.
  lemma OnTheWay(m: Machine, start: State, k: nat, steps: nat)
    requires k <= steps && Final(Run(m, start, steps)) && !Run(m, start, steps).Stuck?
    ensures !Run(m, start, k).Stuck?
    ensures Final(Run(m, start, k)) ==> Run(m, start, k) == Run(m, start, steps)
  {
    hide Step;
    RunAdds(m, start, k, steps - k);
    if Final(Run(m, start, k)) { FinalStays(m, Run(m, start, k), steps - k); }
  }

  // The stack has kept within its limit for the first `k` steps.
  ghost predicate Within(m: Machine, start: State, k: nat, max: nat) {
    forall j: nat :: j <= k ==> Height(StackOf(Run(m, start, j))) <= Limit(max)
  }

  lemma WithinOneMore(m: Machine, start: State, k: nat, max: nat)
    requires Within(m, start, k, max) && Height(StackOf(Run(m, start, k + 1))) <= Limit(max)
    ensures Within(m, start, k + 1, max)
  {
    hide Run;
  }

  lemma FinalHasNoStack(st: State)
    requires Final(st)
    ensures Height(StackOf(st)) == 0
  {
  }

  // Once the end is reached nothing can overflow any more.
  lemma WithinToTheEnd(m: Machine, start: State, k: nat, steps: nat, max: nat)
    requires k <= steps && Within(m, start, k, max) && Final(Run(m, start, k))
    ensures !Overflows(m, start, steps, max)
  {
    hide Step, Height, Run, StackOf;
    FinalHasNoStack(Run(m, start, k));
    forall j: nat | j <= steps ensures Height(StackOf(Run(m, start, j))) <= Limit(max) {
      if j > k {
        RunAdds(m, start, k, j - k);
        FinalStays(m, Run(m, start, k), j - k);
      }
    }
  }

  // `doublestack`: room for more entries, or the stack-overflow error.
  method DoubleStack(limit: nat, max: nat) returns (ok: bool, newLimit: nat)
    requires INITBACK <= limit <= Limit(max)
    ensures ok <==> limit < Limit(max)
    ensures ok ==> limit < newLimit <= Limit(max)
  {
    ok := limit < max;
    newLimit := if 2 * limit > max then max else 2 * limit;
  }

  lemma StartIs(m: Machine, i: nat, max: nat)
    ensures EffectIs(Effect(false, 0, i, [Back(GIVEUP, i, 0)], []), Run(m, Start(i), 0))
    ensures Within(m, Start(i), 0, max)
  {
    ListPush([], Back(GIVEUP, i, 0));
    assert [] + [Back(GIVEUP, i, 0)] == [Back(GIVEUP, i, 0)];
    assert Height(Start(i).stack) == 1;
  }

  // The assertions of the source at the head of its loop.
  lemma RunningIsSane(m: Machine, e: Effect)
    requires !e.fail && !Step(m, Running(e.pc, e.s, ListOf(e.stack), e.caps)).Stuck?
    ensures e.s <= |m.s| && (e.pc != GIVEUP ==> HasInst(m.code, e.pc) && m.code[e.pc].op != IOpenCall)
    ensures e.pc == GIVEUP ==> Step(m, Running(e.pc, e.s, ListOf(e.stack), e.caps)) == GaveUp
    ensures e.pc != GIVEUP && m.code[e.pc].op == IEnd ==>
              Step(m, Running(e.pc, e.s, ListOf(e.stack), e.caps)) == Ended(e.s, e.caps)
  {
    hide ListOf;
  }

  // The label `fail`: one entry is taken off, and a pending call is dropped.
  method Backtrack(m: Machine, e: Effect) returns (next: Effect)
    requires e.fail && !Step(m, Failing(ListOf(e.stack), e.caps)).Stuck?
    ensures EffectIs(next, Step(m, Failing(ListOf(e.stack), e.caps))) && |next.stack| < |e.stack|
  {
    var top := e.stack[|e.stack| - 1];
    var rest := e.stack[..|e.stack| - 1];
    next := if top.Ret? then Effect(true, e.pc, e.s, rest, e.caps)
            else Effect(false, top.p, top.s, rest, e.caps[..top.caplevel]);
  }

  lemma PushGrows(m: Machine, e: Effect)
    requires !e.fail && HasInst(m.code, e.pc) && m.code[e.pc].op in {IChoice, ICall} && e.pc != GIVEUP
    requires !Step(m, Running(e.pc, e.s, ListOf(e.stack), e.caps)).Stuck?
    ensures Height(StackOf(Step(m, Running(e.pc, e.s, ListOf(e.stack), e.caps)))) == |e.stack| + 1
  {
    ListHeight(e.stack);
  }

  lemma EffectHeight(e: Effect, st: State)
    requires EffectIs(e, st)
    ensures Height(StackOf(st)) == |e.stack|
  {
    ListHeight(e.stack);
  }

  // The opcode interpreter. The run of the machine that it follows ends after
  // `steps` steps without getting stuck; `match` then reports that end, or an
  // overflow exactly when the run needs more than `max` stack entries.
  method Match(code: seq<Slot>, s: seq<Byte>, i: nat, max: nat, ghost steps: nat) returns (r: MatchResult)
    requires i <= |s|
    requires var end := Run(Machine(code, s), Start(i), steps); Final(end) && !end.Stuck?
    ensures r.StackOverflow? <==> Overflows(Machine(code, s), Start(i), steps, max)
    ensures !r.StackOverflow? ==> EndOf(r) == Run(Machine(code, s), Start(i), steps)
  {
    hide Run, Step, Exec, Within, Overflows, Height, ListOf, StackOf;
    var m := Machine(code, s);
    ghost var start := Start(i);
    var e := Effect(false, 0, i, [Back(GIVEUP, i, 0)], []);
    var limit := INITBACK;
    ghost var k: nat := 0;
    StartIs(m, i, max);
    while true
      invariant k <= steps && EffectIs(e, Run(m, start, k))
      invariant |e.stack| <= limit && INITBACK <= limit <= Limit(max)
      invariant Within(m, start, k, max)
      decreases steps - k
    {
      OnTheWay(m, start, k, steps);
      RunStep(m, start, k);
      assert k < steps;
      OnTheWay(m, start, k + 1, steps);
      if e.fail {
        e := Backtrack(m, e);
      } else {
        RunningIsSane(m, e);
        if e.pc == GIVEUP {
          EndedWithin(m, start, k, steps, max);
          return Failure;
        }
        var op := m.code[e.pc].op;
        if op == IEnd {
          EndedWithin(m, start, k, steps, max);
          return Success(e.s, e.caps);
        }
        if op in {IChoice, ICall} && |e.stack| == limit {
          var ok, newLimit := DoubleStack(limit, max);
          if !ok {
            PushGrows(m, e);
            OverflowsHere(m, start, k + 1, steps, max);
            return StackOverflow;
          }
          limit := newLimit;
        }
        if op in {IAny, IChar, ISet, ISpan, IBehind, IFullCapture, IOpenCapture, ICloseCapture} {
          e := Read(m, e.pc, e.s, e.stack, e.caps);
        } else {
          e := Transfer(m, e.pc, e.s, e.stack, e.caps);
        }
      }
      EffectHeight(e, Run(m, start, k + 1));
      WithinOneMore(m, start, k, max);
      k := k + 1;
    }
  }

  lemma EndedWithin(m: Machine, start: State, k: nat, steps: nat, max: nat)
    requires k < steps && Within(m, start, k, max) && Final(Run(m, start, k + 1))
    ensures !Overflows(m, start, steps, max)
  {
    hide Run, Step, Within;
    assert Height(StackOf(Run(m, start, k + 1))) == 0;
    WithinOneMore(m, start, k, max);
    WithinToTheEnd(m, start, k + 1, steps, max);
  }

  lemma OverflowsHere(m: Machine, start: State, k: nat, steps: nat, max: nat)
    requires k <= steps && Height(StackOf(Run(m, start, k))) > Limit(max)
    ensures Overflows(m, start, steps, max)
  {
  }
}
