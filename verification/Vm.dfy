// The matching machine of lpvm.c, one step at a time. It is deterministic; two
// states are as good as one another when their runs meet.

module Vm {
  import opened PegSyntax

  datatype Opcode =
    | IAny | IChar | ISet
    | ITestAny | ITestChar | ITestSet
    | ISpan | IBehind | IRet | IEnd
    | IChoice | IJmp | ICall | IOpenCall
    | ICommit | IPartialCommit | IBackCommit
    | IFailTwice | IFail
    | IFullCapture | IOpenCapture | ICloseCapture

  // One slot of the code array. An instruction takes one slot of its own, one
  // more for an offset if it has a label, and BUFF_SLOTS more for a character
  // set, each holding the members of 32 consecutive characters. `Unset` is an
  // offset slot that has not been filled in yet.
  datatype Slot =
    | Inst(op: Opcode, aux: int, key: int)
    | Offset(off: int)
    | Buff(cs: Charset)
    | Unset

  const BUFF_SLOTS := 8
  const CHARSET_INST_SIZE := 9

  predicate Labelled(op: Opcode) {
    op in {ITestSet, ITestChar, ITestAny, IChoice, IJmp, ICall, IOpenCall, ICommit, IPartialCommit, IBackCommit}
  }

  // `sizei`
  function SizeI(op: Opcode): (n: nat)
    ensures n > 0
  {
    if op == ISet || op == ISpan then CHARSET_INST_SIZE
    else if op == ITestSet then CHARSET_INST_SIZE + 1
    else if Labelled(op) then 2
    else 1
  }

  // A backtrack entry keeps where to go on, the subject position and the
  // capture level; a call entry keeps the return address only.
  datatype Entry =
    | Back(p: int, s: nat, caplevel: nat)
    | Ret(p: int)

  datatype Stack = Bottom | Push(top: Entry, rest: Stack)

  // `Failing` is the machine at the label `fail`.
  datatype State =
    | Running(pc: int, s: nat, stack: Stack, caps: seq<Capture>)
    | Failing(stack: Stack, caps: seq<Capture>)
    | Ended(end: nat, caps: seq<Capture>)
    | GaveUp
    | Stuck

  datatype Machine = Machine(code: seq<Slot>, s: seq<Byte>)

  // The address of the `giveup` instruction at the bottom of the stack.
  const GIVEUP := -1

  predicate HasInst(code: seq<Slot>, pc: int) {
    0 <= pc < |code| && code[pc].Inst?
  }

  predicate HasOffset(code: seq<Slot>, pc: int) {
    0 <= pc && pc + 1 < |code| && code[pc + 1].Offset?
  }

  // `testchar` on the buffer that starts at `q`.
  predicate InBuffer(code: seq<Slot>, q: int, c: Byte) {
    0 <= q + c / 32 < |code| && code[q + c / 32].Buff? && c in code[q + c / 32].cs
  }

  // Where a span that starts at `i` stops.
  function SpanEnd(code: seq<Slot>, q: int, s: seq<Byte>, i: nat): (j: nat)
    requires i <= |s|
    ensures i <= j <= |s|
    decreases |s| - i
  {
    if i < |s| && InBuffer(code, q, s[i]) then SpanEnd(code, q, s, i + 1) else i
  }

  // `ICloseCapture`: close the last entry in place if it is the open one and
  // its length fits, add a closing entry otherwise.
  function CloseCapture(caps: seq<Capture>, s: nat, key: int, kind: Kind): (r: seq<Capture>) {
    if caps != [] && caps[|caps| - 1].siz == 0 && caps[|caps| - 1].s <= s
       && s - caps[|caps| - 1].s < UCHAR_MAX then
      caps[|caps| - 1 := caps[|caps| - 1].(siz := s - caps[|caps| - 1].s + 1)]
    else
      caps + [Capture(s, if key >= 0 then key else 0, kind, 1)]
  }

  // One pass through the loop of `match`.
  function Step(m: Machine, st: State): State {
    match st
    case Ended(_, _) => st
    case GaveUp => st
    case Stuck => st
    case Failing(stack, caps) =>
      (match stack
       case Bottom => Stuck
       case Push(Ret(_), rest) => Failing(rest, caps)
       case Push(Back(p, s, level), rest) =>
         if level <= |caps| then Running(p, s, rest, caps[..level]) else Stuck)
    case Running(pc, s, stack, caps) =>
      if s > |m.s| then Stuck
      else if pc == GIVEUP then GaveUp
      else if !HasInst(m.code, pc) then Stuck
      else Exec(m, pc, s, stack, caps)
  }

  function Exec(m: Machine, pc: int, s: nat, stack: Stack, caps: seq<Capture>): State
    requires HasInst(m.code, pc) && s <= |m.s|
  {
    var Inst(op, aux, key) := m.code[pc];
    if Labelled(op) && !HasOffset(m.code, pc) then Stuck
    else
      var target := if Labelled(op) then pc + m.code[pc + 1].off else pc;
      match op
      case IEnd => Ended(s, caps)
      case IRet =>
        if stack.Push? && stack.top.Ret? then Running(stack.top.p, s, stack.rest, caps) else Stuck
      case IAny =>
        if s < |m.s| then Running(pc + 1, s + 1, stack, caps) else Failing(stack, caps)
      case ITestAny =>
        Running(if s < |m.s| then pc + 2 else target, s, stack, caps)
      case IChar =>
        if s < |m.s| && m.s[s] == aux then Running(pc + 1, s + 1, stack, caps) else Failing(stack, caps)
      case ITestChar =>
        Running(if s < |m.s| && m.s[s] == aux then pc + 2 else target, s, stack, caps)
      case ISet =>
        if s < |m.s| && InBuffer(m.code, pc + 1, m.s[s])
        then Running(pc + CHARSET_INST_SIZE, s + 1, stack, caps) else Failing(stack, caps)
      case ITestSet =>
        Running(if s < |m.s| && InBuffer(m.code, pc + 2, m.s[s])
                then pc + 1 + CHARSET_INST_SIZE else target, s, stack, caps)
      case IBehind =>
        if aux < 0 then Stuck
        else if aux > s then Failing(stack, caps) else Running(pc + 1, s - aux, stack, caps)
      case ISpan => Running(pc + CHARSET_INST_SIZE, SpanEnd(m.code, pc + 1, m.s, s), stack, caps)
      case IJmp => Running(target, s, stack, caps)
      case IChoice => Running(pc + 2, s, Push(Back(target, s, |caps|), stack), caps)
      case ICall => Running(target, s, Push(Ret(pc + 2), stack), caps)
      case IOpenCall => Stuck
      case ICommit =>
        if stack.Push? && stack.top.Back? then Running(target, s, stack.rest, caps) else Stuck
      case IPartialCommit =>
        if stack.Push? && stack.top.Back?
        then Running(target, s, Push(Back(stack.top.p, s, |caps|), stack.rest), caps) else Stuck
      case IBackCommit =>
        if stack.Push? && stack.top.Back? && stack.top.caplevel <= |caps|
        then Running(target, stack.top.s, stack.rest, caps[..stack.top.caplevel]) else Stuck
      case IFailTwice =>
        if stack.Push? then Failing(stack.rest, caps) else Stuck
      case IFail => Failing(stack, caps)
      case ICloseCapture =>
        if aux < 0 || key < 0 then Stuck
        else Running(pc + 1, s, stack, CloseCapture(caps, s, key, aux % 16))
      case IOpenCapture =>
        if aux < 0 || key < 0 then Stuck
        else Running(pc + 1, s, stack, caps + [Capture(s, key, aux % 16, 0)])
      case IFullCapture =>
        if aux < 0 || key < 0 || aux / 16 > s then Stuck
        else Running(pc + 1, s, stack, caps + [Capture(s - aux / 16, key, aux % 16, aux / 16 + 1)])
  }

  function Run(m: Machine, st: State, n: nat): State
    decreases n
  {
    if n == 0 then st else Run(m, Step(m, st), n - 1)
  }

  // The state `match` starts in: one entry that makes the machine give up.
  function Start(i: nat): State {
    Running(0, i, Push(Back(GIVEUP, i, 0), Bottom), [])
  }

  // -------------------------------------------------------------------------
  // Two states join when their runs meet. The machine is deterministic, so
  // this is an equivalence, and states that join come to the same end.
  // -------------------------------------------------------------------------

  ghost predicate Joins(m: Machine, a: State, b: State) {
    exists x: nat, y: nat :: Run(m, a, x) == Run(m, b, y)
  }

  lemma {:induction false} RunAdds(m: Machine, st: State, x: nat, y: nat)
    ensures Run(m, Run(m, st, x), y) == Run(m, st, x + y)
    decreases x
  {
    if x > 0 { RunAdds(m, Step(m, st), x - 1, y); }
  }

  lemma JoinsSelf(m: Machine, st: State)
    ensures Joins(m, st, st)
  {
    assert Run(m, st, 0) == Run(m, st, 0);
  }

  lemma JoinsStep(m: Machine, st: State)
    ensures Joins(m, st, Step(m, st))
  {
    assert Run(m, st, 1) == Run(m, Step(m, st), 0);
  }

  lemma JoinsBack(m: Machine, a: State, b: State)
    requires Joins(m, a, b)
    ensures Joins(m, b, a)
  {
    var x: nat, y: nat :| Run(m, a, x) == Run(m, b, y);
    assert Run(m, b, y) == Run(m, a, x);
  }

  lemma JoinsTrans(m: Machine, a: State, b: State, c: State)
    requires Joins(m, a, b) && Joins(m, b, c)
    ensures Joins(m, a, c)
  {
    var x: nat, y: nat :| Run(m, a, x) == Run(m, b, y);
    var u: nat, v: nat :| Run(m, b, u) == Run(m, c, v);
    if y <= u {
      RunAdds(m, a, x, u - y);
      RunAdds(m, b, y, u - y);
      assert Run(m, a, x + (u - y)) == Run(m, c, v);
    } else {
      RunAdds(m, b, u, y - u);
      RunAdds(m, c, v, y - u);
      assert Run(m, a, x) == Run(m, c, v + (y - u));
    }
  }

  predicate Final(st: State) { st.Ended? || st.GaveUp? || st.Stuck? }

  lemma {:induction false} FinalStays(m: Machine, st: State, n: nat)
    requires Final(st)
    ensures Run(m, st, n) == st
  {
    if n > 0 { FinalStays(m, st, n - 1); }
  }

  // A state that joins a final state runs into it.
  lemma JoinsFinal(m: Machine, st: State, end: State) returns (n: nat)
    requires Joins(m, st, end) && Final(end)
    ensures Run(m, st, n) == end
  {
    var x: nat, y: nat :| Run(m, st, x) == Run(m, end, y);
    FinalStays(m, end, y);
    n := x;
  }

  // The machine fails out of `st` onto `stack`, with at least `caps` intact.
  ghost predicate FailsOnto(m: Machine, st: State, stack: Stack, caps: seq<Capture>) {
    exists more :: caps <= more && Joins(m, st, Failing(stack, more))
  }

  lemma FailsNow(m: Machine, stack: Stack, caps: seq<Capture>, more: seq<Capture>)
    requires caps <= more
    ensures FailsOnto(m, Failing(stack, more), stack, caps)
  {
    JoinsSelf(m, Failing(stack, more));
  }

  lemma FailsAfter(m: Machine, st: State, next: State, stack: Stack, caps: seq<Capture>)
    requires Joins(m, st, next) && FailsOnto(m, next, stack, caps)
    ensures FailsOnto(m, st, stack, caps)
  {
    var more :| caps <= more && Joins(m, next, Failing(stack, more));
    JoinsTrans(m, st, next, Failing(stack, more));
  }

  lemma FailsWithLess(m: Machine, st: State, stack: Stack, caps: seq<Capture>, less: seq<Capture>)
    requires FailsOnto(m, st, stack, caps) && less <= caps
    ensures FailsOnto(m, st, stack, less)
  {
    var more :| caps <= more && Joins(m, st, Failing(stack, more));
    assert less <= more;
  }

  // Failing onto a backtrack entry goes on where the entry says.
  lemma FailsToEntry(m: Machine, st: State, p: int, s: nat, rest: Stack, caps: seq<Capture>)
    requires FailsOnto(m, st, Push(Back(p, s, |caps|), rest), caps)
    ensures Joins(m, st, Running(p, s, rest, caps))
  {
    var stack := Push(Back(p, s, |caps|), rest);
    var more :| caps <= more && Joins(m, st, Failing(stack, more));
    assert more[..|caps|] == caps;
    JoinsStep(m, Failing(stack, more));
    JoinsTrans(m, st, Failing(stack, more), Running(p, s, rest, caps));
  }

  // Failing onto a pending call drops the call.
  lemma FailsThroughCall(m: Machine, st: State, p: int, rest: Stack, caps: seq<Capture>)
    requires FailsOnto(m, st, Push(Ret(p), rest), caps)
    ensures FailsOnto(m, st, rest, caps)
  {
    var more :| caps <= more && Joins(m, st, Failing(Push(Ret(p), rest), more));
    JoinsStep(m, Failing(Push(Ret(p), rest), more));
    JoinsTrans(m, st, Failing(Push(Ret(p), rest), more), Failing(rest, more));
  }

  // -------------------------------------------------------------------------
  // Single instructions, as joins
  // -------------------------------------------------------------------------

  // A labelled instruction and its offset.
  predicate At(code: seq<Slot>, q: int, op: Opcode, off: int) {
    HasInst(code, q) && code[q] == Inst(op, 0, 0) && HasOffset(code, q) && code[q + 1] == Offset(off)
  }

  lemma JmpRuns(m: Machine, q: int, off: int, s: nat, stack: Stack, caps: seq<Capture>)
    requires s <= |m.s| && At(m.code, q, IJmp, off)
    ensures Joins(m, Running(q, s, stack, caps), Running(q + off, s, stack, caps))
  {
    JoinsStep(m, Running(q, s, stack, caps));
  }

  lemma ChoiceRuns(m: Machine, q: int, off: int, s: nat, stack: Stack, caps: seq<Capture>)
    requires s <= |m.s| && At(m.code, q, IChoice, off)
    ensures Joins(m, Running(q, s, stack, caps), Running(q + 2, s, Push(Back(q + off, s, |caps|), stack), caps))
  {
    JoinsStep(m, Running(q, s, stack, caps));
  }

  lemma CallRuns(m: Machine, q: int, off: int, s: nat, stack: Stack, caps: seq<Capture>)
    requires s <= |m.s| && HasOffset(m.code, q) && m.code[q + 1] == Offset(off)
    requires HasInst(m.code, q) && (m.code[q].op == ICall || m.code[q].op == IJmp)
    ensures Joins(m, Running(q, s, stack, caps),
                  Running(q + off, s, if m.code[q].op == ICall then Push(Ret(q + 2), stack) else stack, caps))
  {
    JoinsStep(m, Running(q, s, stack, caps));
  }

  lemma RetRuns(m: Machine, q: int, p: int, s: nat, rest: Stack, caps: seq<Capture>)
    requires s <= |m.s| && HasInst(m.code, q) && m.code[q].op == IRet
    ensures Joins(m, Running(q, s, Push(Ret(p), rest), caps), Running(p, s, rest, caps))
  {
    JoinsStep(m, Running(q, s, Push(Ret(p), rest), caps));
  }

  lemma CommitRuns(m: Machine, q: int, off: int, p: int, x: nat, y: nat, s: nat, rest: Stack, caps: seq<Capture>)
    requires s <= |m.s| && At(m.code, q, ICommit, off)
    ensures Joins(m, Running(q, s, Push(Back(p, x, y), rest), caps), Running(q + off, s, rest, caps))
  {
    JoinsStep(m, Running(q, s, Push(Back(p, x, y), rest), caps));
  }

  lemma PartialCommitRuns(m: Machine, q: int, off: int, p: int, x: nat, y: nat, s: nat, rest: Stack, caps: seq<Capture>)
    requires s <= |m.s| && At(m.code, q, IPartialCommit, off)
    ensures Joins(m, Running(q, s, Push(Back(p, x, y), rest), caps),
                  Running(q + off, s, Push(Back(p, s, |caps|), rest), caps))
  {
    JoinsStep(m, Running(q, s, Push(Back(p, x, y), rest), caps));
  }

  lemma BackCommitRuns(m: Machine, q: int, off: int, p: int, x: nat, s: nat, rest: Stack, caps: seq<Capture>, more: seq<Capture>)
    requires s <= |m.s| && At(m.code, q, IBackCommit, off)
    ensures Joins(m, Running(q, s, Push(Back(p, x, |caps|), rest), caps + more), Running(q + off, x, rest, caps))
  {
    assert (caps + more)[..|caps|] == caps;
    JoinsStep(m, Running(q, s, Push(Back(p, x, |caps|), rest), caps + more));
  }

  lemma FailRuns(m: Machine, q: int, s: nat, stack: Stack, caps: seq<Capture>)
    requires s <= |m.s| && HasInst(m.code, q) && m.code[q].op == IFail
    ensures FailsOnto(m, Running(q, s, stack, caps), stack, caps)
  {
    JoinsStep(m, Running(q, s, stack, caps));
    FailsNow(m, stack, caps, caps);
    FailsAfter(m, Running(q, s, stack, caps), Failing(stack, caps), stack, caps);
  }

  lemma FailTwiceRuns(m: Machine, q: int, s: nat, top: Entry, stack: Stack, caps: seq<Capture>, more: seq<Capture>)
    requires s <= |m.s| && HasInst(m.code, q) && m.code[q].op == IFailTwice
    ensures FailsOnto(m, Running(q, s, Push(top, stack), caps + more), stack, caps)
  {
    JoinsStep(m, Running(q, s, Push(top, stack), caps + more));
    FailsNow(m, stack, caps, caps + more);
    FailsAfter(m, Running(q, s, Push(top, stack), caps + more), Failing(stack, caps + more), stack, caps);
  }

  lemma BehindRuns(m: Machine, q: int, n: nat, s: nat, stack: Stack, caps: seq<Capture>)
    requires s <= |m.s| && HasInst(m.code, q) && m.code[q] == Inst(IBehind, n, 0)
    ensures n <= s ==> Joins(m, Running(q, s, stack, caps), Running(q + 1, s - n, stack, caps))
    ensures n > s ==> FailsOnto(m, Running(q, s, stack, caps), stack, caps)
  {
    JoinsStep(m, Running(q, s, stack, caps));
    if n > s {
      FailsNow(m, stack, caps, caps);
      FailsAfter(m, Running(q, s, stack, caps), Failing(stack, caps), stack, caps);
    }
  }

  lemma SpanRuns(m: Machine, q: int, s: nat, stack: Stack, caps: seq<Capture>)
    requires s <= |m.s| && HasInst(m.code, q) && m.code[q].op == ISpan
    ensures Joins(m, Running(q, s, stack, caps),
                  Running(q + CHARSET_INST_SIZE, SpanEnd(m.code, q + 1, m.s, s), stack, caps))
  {
    JoinsStep(m, Running(q, s, stack, caps));
  }

  lemma OpenRuns(m: Machine, q: int, kind: Kind, key: nat, s: nat, stack: Stack, caps: seq<Capture>)
    requires s <= |m.s| && HasInst(m.code, q) && m.code[q] == Inst(IOpenCapture, kind, key)
    ensures Joins(m, Running(q, s, stack, caps), Running(q + 1, s, stack, caps + [Capture(s, key, kind, 0)]))
  {
    JoinsStep(m, Running(q, s, stack, caps));
  }

  lemma CloseRuns(m: Machine, q: int, s: nat, stack: Stack, caps: seq<Capture>)
    requires s <= |m.s| && HasInst(m.code, q) && m.code[q] == Inst(ICloseCapture, C_CLOSE, 0)
    ensures Joins(m, Running(q, s, stack, caps), Running(q + 1, s, stack, CloseCapture(caps, s, 0, C_CLOSE)))
  {
    JoinsStep(m, Running(q, s, stack, caps));
  }

  lemma FullCaptureRuns(m: Machine, q: int, kind: Kind, len: nat, key: nat, s: nat, stack: Stack, caps: seq<Capture>)
    requires len <= s <= |m.s| && HasInst(m.code, q) && m.code[q] == Inst(IFullCapture, kind + 16 * len, key)
    ensures Joins(m, Running(q, s, stack, caps),
                  Running(q + 1, s, stack, caps + [Capture(s - len, key, kind, len + 1)]))
  {
    JoinsStep(m, Running(q, s, stack, caps));
  }
}
