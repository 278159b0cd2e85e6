// Runs of the scheduler.

module Dispatching {
  // What holds in every state that some interleaving of threads leads to.

  import opened MessageQueue
  import opened Scheduler

  // Every step of every thread keeps the invariant.
  lemma StepKeeps(s: State, t: nat, c: Choice)
    requires Inv(s)
    ensures Inv(Step(s, t, c))
  {
    hide Step, IdOk;
    if t < |s.threads| && s.threads[t] != [] {
      var f := s.threads[t][|s.threads[t]| - 1];
      forall id: Id ensures IdOk(Step(s, t, c), id) {
        assert IdOk(s, id);
        if f.Fetch? || f.Enter? || Dispatches(f) {
          WorkerKeeps(s, t, c, f, id);
        } else if f.MqRelease? || f.Drop? || f.Free? || f.Post? || f.Send? || f.Touch? {
          QueueKeeps(s, t, c, f, id);
        } else if f.Release? || f.Delete? || f.Mark? || f.Retire? || f.Launch? {
          ContextKeeps(s, t, c, f, id);
        } else if f.Init? || f.InitFailed? || f.Outside? {
          StartKeeps(s, t, c, f, id);
        } else {
          LaunchedKeeps(s, t, c, f, id);
        }
      }
    } else {
      NoThread(s, t, c);
    }
  }

  lemma NoThread(s: State, t: nat, c: Choice)
    requires t >= |s.threads| || s.threads[t] == []
    ensures Step(s, t, c) == s
  {
  }

  // Which thread runs next, and what it chooses.
  datatype Turn = Turn(thread: nat, choice: Choice)

  function Run(s: State, schedule: seq<Turn>): State
    decreases |schedule|
  {
    if schedule == [] then s else Run(Step(s, schedule[0].thread, schedule[0].choice), schedule[1..])
  }

  // At the start there are workers and other threads, and no service.
  predicate Initial(s: State) {
    && s.services == map[] && s.global == [] && s.used == {} && s.pushed == map[] && s.taken == map[] && s.freed == []
    && forall t :: 0 <= t < |s.threads| ==> s.threads[t] == [Fetch] || s.threads[t] == [Outside]
  }

  lemma {:induction false} InitialHoldNothing(k: Kind, threads: seq<seq<Frame>>, id: Id)
    requires forall t :: 0 <= t < |threads| ==> threads[t] == [Fetch] || threads[t] == [Outside]
    ensures AllHold(k, threads, id) == 0
  {
    if threads != [] {
      InitialHoldNothing(k, threads[..|threads| - 1], id);
      FewHold(k, 1, Fetch, Outside, Outside, id);
      FewHold(k, 1, Outside, Outside, Outside, id);
    }
  }

  lemma InitialInv(s: State)
    requires Initial(s)
    ensures Inv(s)
  {
    forall id: Id ensures IdOk(s, id) {
      forall k: Kind ensures Total(s, k, id) == 0 { InitialHoldNothing(k, s.threads, id); }
    }
  }

  lemma {:induction false} RunKeeps(s: State, schedule: seq<Turn>)
    requires Inv(s)
    ensures Inv(Run(s, schedule))
    decreases |schedule|
  {
    hide Inv, Step;
    if schedule != [] {
      StepKeeps(s, schedule[0].thread, schedule[0].choice);
      RunKeeps(Step(s, schedule[0].thread, schedule[0].choice), schedule[1..]);
    }
  }

  // The state after any schedule of any initial state.
  ghost predicate Reachable(s: State) {
    exists s0, schedule :: Initial(s0) && s == Run(s0, schedule)
  }

  lemma ReachableInv(s: State)
    requires Reachable(s)
    ensures Inv(s)
  {
    hide Inv, Run;
    var s0, schedule :| Initial(s0) && s == Run(s0, schedule);
    InitialInv(s0);
    RunKeeps(s0, schedule);
  }

  // -------------------------------------------------------------------------
  // What it means
  // -------------------------------------------------------------------------

  // Frame `k` of thread `t`.
  predicate Seat(s: State, t: nat, k: nat) { t < |s.threads| && k < |s.threads[t]| }

  // The frame has the queue of `id` in its hands.
  predicate Has(f: Frame, id: Id) {
    (HoldsQueue(f) && f.id == id) || (f.Swap? && f.nq == id) || (Builds(f) && f.id == id)
  }

  function Hands(stack: seq<Frame>, id: Id): nat { StackHolds(Holders, stack, id) + StackHolds(Builders, stack, id) }

  lemma {:induction false} HandsAt(stack: seq<Frame>, k: nat, id: Id)
    requires k < |stack| && Has(stack[k], id)
    ensures Hands(stack, id) >= 1
  {
    if k < |stack| - 1 { HandsAt(stack[..|stack| - 1], k, id); }
  }

  lemma {:induction false} HandsTwice(stack: seq<Frame>, j: nat, k: nat, id: Id)
    requires j < k < |stack| && Has(stack[j], id) && Has(stack[k], id)
    ensures Hands(stack, id) >= 2
  {
    var n := |stack| - 1;
    if k < n {
      HandsTwice(stack[..n], j, k, id);
    } else {
      HandsAt(stack[..n], j, id);
    }
  }

  function AllHands(threads: seq<seq<Frame>>, id: Id): nat { AllHold(Holders, threads, id) + AllHold(Builders, threads, id) }

  lemma {:induction false} AllHandsAt(threads: seq<seq<Frame>>, t: nat, id: Id)
    requires t < |threads|
    ensures AllHands(threads, id) >= Hands(threads[t], id)
  {
    if t < |threads| - 1 { AllHandsAt(threads[..|threads| - 1], t, id); }
  }

  lemma {:induction false} AllHandsTwice(threads: seq<seq<Frame>>, t: nat, u: nat, id: Id)
    requires t < u < |threads|
    ensures AllHands(threads, id) >= Hands(threads[t], id) + Hands(threads[u], id)
  {
    var n := |threads| - 1;
    if u < n {
      AllHandsTwice(threads[..n], t, u, id);
    } else {
      AllHandsAt(threads[..n], t, id);
    }
  }

  // A queue is in the hands of at most one thread, in one place of its stack;
  // and then it is not in the global queue. It is never there twice.
  lemma OneHolder(s: State, id: Id, t: nat, j: nat, u: nat, k: nat)
    requires Reachable(s) && Seat(s, t, j) && Seat(s, u, k)
    requires Has(s.threads[t][j], id) && Has(s.threads[u][k], id)
    ensures t == u && j == k && id !in s.global
  {
    hide StackHolds, AllHold, Has, Reachable;
    ReachableInv(s);
    assert IdOk(s, id);
    HandsAt(s.threads[t], j, id);
    HandsAt(s.threads[u], k, id);
    AllHandsAt(s.threads, t, id);
    if t < u { AllHandsTwice(s.threads, t, u, id); }
    if u < t { AllHandsTwice(s.threads, u, t, id); }
    if t == u && j < k { HandsTwice(s.threads[t], j, k, id); }
    if t == u && k < j { HandsTwice(s.threads[t], k, j, id); }
  }

  lemma QueuedOnce(s: State, id: Id)
    requires Reachable(s)
    ensures multiset(s.global)[id] <= 1
  {
    hide Reachable, AllHold;
    ReachableInv(s);
    assert IdOk(s, id);
  }

  // A queue that holds messages is marked as being in the global queue, and is
  // there or in the hands of a thread: no message waits in a queue that nobody
  // will look at.
  lemma NothingForgotten(s: State, id: Id)
    requires Reachable(s) && id in s.services && s.services[id].mq.msgs != []
    ensures s.services[id].mq.inGlobal
    ensures id in s.global || exists t: nat, k: nat :: Seat(s, t, k) && Has(s.threads[t][k], id)
  {
    hide Reachable, AllHold;
    ReachableInv(s);
    assert IdOk(s, id);
    if id !in s.global {
      var t, k := SomeHands(s.threads, id);
      assert Seat(s, t, k);
    }
  }

  lemma {:induction false} SomeHands(threads: seq<seq<Frame>>, id: Id) returns (t: nat, k: nat)
    requires AllHands(threads, id) > 0
    ensures t < |threads| && k < |threads[t]| && Has(threads[t][k], id)
  {
    var n := |threads| - 1;
    if Hands(threads[n], id) > 0 {
      t := n;
      k := SomeHand(threads[n], id);
    } else {
      t, k := SomeHands(threads[..n], id);
    }
  }

  lemma {:induction false} SomeHand(stack: seq<Frame>, id: Id) returns (k: nat)
    requires Hands(stack, id) > 0
    ensures k < |stack| && Has(stack[k], id)
  {
    var n := |stack| - 1;
    if Has(stack[n], id) {
      k := n;
    } else {
      k := SomeHand(stack[..n], id);
    }
  }

  // Every message that was pushed has been taken once, in the order of the
  // pushes, or is still in the queue; when the queue is gone, all were taken.
  lemma EachMessageOnce(s: State, id: Id)
    requires Reachable(s)
    ensures Log(s.pushed, id) ==
            Msgs(Log(s.taken, id)) + (if id in s.services then s.services[id].mq.msgs else [])
  {
    hide Reachable, AllHold, Msgs;
    ReachableInv(s);
    assert IdOk(s, id);
  }

  // A queue is freed once at most, and exactly when its service is gone.
  lemma FreedOnce(s: State, id: Id)
    requires Reachable(s)
    ensures multiset(s.freed)[id] == if id in s.used && id !in s.services then 1 else 0
  {
    hide Reachable, AllHold, Msgs;
    ReachableInv(s);
    assert IdOk(s, id);
  }

  // What the source dereferences and asserts in the step of a frame.
  ghost predicate Sound(s: State, f: Frame) {
    match f
    case Enter(q) => q in s.services
    case Next(q, _, _) => Alive(s, q)
    case Counting(q, _, _) => Alive(s, q)
    case Callback(q, _, _) => Alive(s, q) && s.services[q].init
    case Finish(q) => Alive(s, q)
    case Swap(q, nq) => Alive(s, q) && nq in s.services && q !in s.global && q != nq
    case MqRelease(q) => q in s.services && q !in s.global
    case Drop(q) => q in s.services && s.services[q].mq.release
    case Free(q) => q in s.services && q !in s.global && s.services[q].mq.msgs == [] && !s.services[q].live
    case Release(q) => Alive(s, q) && s.services[q].ref > 0
    case Delete(q) => Alive(s, q) && s.services[q].ref == 0
    case Mark(q) =>
      && Alive(s, q) && s.services[q].ref == 0 && !s.services[q].mq.release
      && (!s.services[q].mq.inGlobal ==> q !in s.global)
    case Post(q, _) => Alive(s, q) && (!s.services[q].mq.inGlobal ==> q !in s.global)
    case Init(q) => Alive(s, q)
    case InitFailed(q) => q in s.services
    case Started(q) => Alive(s, q) && s.services[q].ref > 0
    case Store(q) => Alive(s, q)
    case Publish(q, _) => q in s.services && q !in s.global
    case Note(q) => Alive(s, q)
    case _ => true
  }

  // The context has not been freed, nor has the queue.
  predicate Alive(s: State, q: Id) { q in s.services && s.services[q].live }

  // Where the source uses a context without holding a reference to it.
  predicate Unguarded(f: Frame) { f.Store? || f.Note? }

  // Apart from that, no thread ever uses a context or a queue that has been
  // freed, dispatches to a service that is still starting up, enters a queue into
  // the global queue twice or releases it twice.
  lemma SoundUnlessUnguarded(s: State, t: nat)
    requires Reachable(s) && t < |s.threads| && s.threads[t] != []
    requires !Unguarded(s.threads[t][|s.threads[t]| - 1])
    ensures Sound(s, s.threads[t][|s.threads[t]| - 1])
  {
    hide Reachable, AllHold, Holds;
    ReachableInv(s);
    var f := s.threads[t][|s.threads[t]| - 1];
    assert At(s, t, f);
    hide Inv, IdOk;
    if !f.Fetch? && !f.Outside? {
      assert IdOk(s, f.id) by { InvAt(s, f.id); }
      FrameSound(s, t, f, f.id);
      if f.Swap? {
        assert IdOk(s, f.nq) by { InvAt(s, f.nq); }
        FrameSound(s, t, f, f.nq);
      }
    }
  }

  // A context that is still registered, or that some thread refers to or is about
  // to free.
  ghost predicate InUse(s: State, id: Id) {
    id in s.services && (s.services[id].registered || Total(s, Refs, id) > 0 || Total(s, Deleters, id) > 0)
  }

  // So a step is sound if and only if it does not use a context, without holding
  // a reference, that nobody else keeps.
  lemma SoundExactly(s: State, t: nat)
    requires Reachable(s) && t < |s.threads| && s.threads[t] != []
    ensures var f := s.threads[t][|s.threads[t]| - 1];
            Sound(s, f) <==> (Unguarded(f) ==> InUse(s, f.id))
  {
    hide Reachable, AllHold;
    var f := s.threads[t][|s.threads[t]| - 1];
    ReachableInv(s);
    if Unguarded(f) {
      assert IdOk(s, f.id);
    } else {
      SoundUnlessUnguarded(s, t);
    }
  }

  lemma InvAt(s: State, id: Id)
    requires Inv(s)
    ensures IdOk(s, id)
  {
  }

  lemma FrameSound(s: State, t: nat, f: Frame, id: Id)
    requires At(s, t, f) && IdOk(s, id)
    ensures !f.Swap? && !f.Fetch? && !f.Outside? && !Unguarded(f) && f.id == id ==> Sound(s, f)
    ensures f.Swap? && f.id == id ==> Alive(s, id) && id !in s.global && f.nq != id
    ensures f.Swap? && f.nq == id ==> id in s.services
  {
    hide AllHold;
    Order(s, id);
    TopHolds(s, t, f, id);
  }

  lemma TopHolds(s: State, t: nat, f: Frame, id: Id)
    requires At(s, t, f)
    ensures forall k: Kind :: Holds(k, f, id) <= Total(s, k, id)
  {
    hide AllHold, Holds;
    forall k: Kind ensures Holds(k, f, id) <= Total(s, k, id) {
      StepGains(s, t, f, 0, Outside, Outside, Outside, Become(s, t, []), k, id);
    }
  }

  // When all workers are idle and the global queue is empty, nothing is left to
  // do: every service that is there is registered, unused and out of messages,
  // and every other one has had its queue freed and all its messages taken.
  lemma QuietMeansDone(s: State, id: Id)
    requires Reachable(s) && s.global == [] && id in s.used
    requires forall t :: 0 <= t < |s.threads| ==> s.threads[t] == [Fetch] || s.threads[t] == [Outside]
    ensures id in s.services ==>
              s.services[id].registered && s.services[id].live && s.services[id].ref == 1 && s.services[id].mq.msgs == []
    ensures id !in s.services ==>
              multiset(s.freed)[id] == 1 && Log(s.pushed, id) == Msgs(Log(s.taken, id))
  {
    hide Reachable, AllHold, Msgs;
    ReachableInv(s);
    assert IdOk(s, id);
    forall k: Kind ensures Total(s, k, id) == 0 { InitialHoldNothing(k, s.threads, id); }
  }

  // -------------------------------------------------------------------------
  // A context used after it has been freed
  // -------------------------------------------------------------------------

  // What the state looks like while thread 0 launches service 1 and thread 1
  // retires it.
  function Launching(v: Service, first: Frame, second: seq<Frame>): State {
    State(map[1 := v], [], [[Outside, first], [Outside] + second], [], {1}, map[], map[], [])
  }

  lemma Updated(v: Service, first: Frame, second: seq<Frame>, w: Service)
    ensures Update(Launching(v, first, second), 1, w) == Launching(w, first, second)
  {
  }

  lemma FirstGoesOn(v: Service, first: Frame, second: seq<Frame>, f: Frame)
    ensures Become(Launching(v, first, second), 0, [f]) == Launching(v, f, second)
  {
    assert [Outside, first][..1] + [f] == [Outside, f];
  }

  lemma SecondGoesOn(v: Service, first: Frame, second: Frame, after: seq<Frame>)
    ensures Become(Launching(v, first, [second]), 1, after) == Launching(v, first, after)
  {
    assert ([Outside] + [second])[..1] == [Outside];
  }

  lemma SecondCalls(v: Service, first: Frame, f: Frame)
    requires IsCall(f)
    ensures Step(Launching(v, first, []), 1, Call(f)) == Launching(v, first, [f])
  {
    assert [Outside] + [] == [Outside];
    assert [Outside][..0] + [Outside, f] == [Outside] + [f];
  }

  // Thread 0 launches a service, which starts up.
  lemma StartsUp() returns (s: State)
    ensures Reachable(s) && s == Launching(Service(2, true, true, false, Mq([], true, false)), Init(1), [])
  {
    var start := State(map[], [], [[Outside], [Outside]], [], {}, map[], map[], []);
    var s1 := Step(start, 0, Call(Launch(1)));
    assert s1 == start.(threads := [[Outside, Launch(1)], [Outside]]) by {
      assert [Outside][..0] + [Outside, Launch(1)] == [Outside, Launch(1)];
    }
    s := Step(s1, 0, Proceed);
    assert [Outside, Launch(1)][..1] + [Init(1)] == [Outside, Init(1)];
    assert [Outside] + [] == [Outside];
    hide Step;
    StartReachable(start);
    NextReachable(start, 0, Call(Launch(1)));
    NextReachable(s1, 0, Proceed);
  }

  // It gives up its reference, while the service is registered.
  lemma Launched() returns (s: State)
    ensures Reachable(s) && s == Launching(Service(1, true, true, false, Mq([], true, false)), Store(1), [])
  {
    var s2 := StartsUp();
    var v := s2.services[1];
    FirstGoesOn(v, Init(1), [], Started(1));
    var s3 := Step(s2, 0, Proceed);
    s := Step(s3, 0, Proceed);
    Updated(v, Started(1), [], v.(ref := 1));
    FirstGoesOn(v.(ref := 1), Started(1), [], Store(1));
    hide Step;
    NextReachable(s2, 0, Proceed);
    NextReachable(s3, 0, Proceed);
  }

  // Then another thread retires the handle, which frees the context.
  lemma RetiredMeanwhile() returns (s: State)
    ensures Reachable(s) && s == Launching(Service(0, false, false, false, Mq([], true, true)), Store(1), [])
  {
    var s4 := Launched();
    var v := Service(1, true, true, false, Mq([], true, false));
    SecondCalls(v, Store(1), Retire(1));
    var s5 := Step(s4, 1, Call(Retire(1)));
    var s6 := Step(s5, 1, Proceed);
    Updated(v, Store(1), [Retire(1)], v.(registered := false));
    SecondGoesOn(v.(registered := false), Store(1), Retire(1), [Release(1)]);
    assert s6 == Launching(v.(registered := false), Store(1), [Release(1)]);
    var w := v.(registered := false, ref := 0);
    var s7 := Step(s6, 1, Proceed);
    Updated(v.(registered := false), Store(1), [Release(1)], w);
    SecondGoesOn(w, Store(1), Release(1), [Delete(1)]);
    var s8 := Step(s7, 1, Proceed);
    SecondGoesOn(w, Store(1), Delete(1), [Mark(1)]);
    assert s8 == Launching(w, Store(1), [Mark(1)]);
    var x := w.(live := false, mq := Mq([], true, true));
    s := Step(s8, 1, Proceed);
    Updated(w, Store(1), [Mark(1)], x);
    SecondGoesOn(x, Store(1), Mark(1), []);
    hide Step;
    NextReachable(s4, 1, Call(Retire(1)));
    NextReachable(s5, 1, Proceed);
    NextReachable(s6, 1, Proceed);
    NextReachable(s7, 1, Proceed);
    NextReachable(s8, 1, Proceed);
  }

  // So the context is freed before it is marked as started up, and before its
  // handle is read for the log.
  lemma UsedAfterFree() returns (s: State, later: State)
    ensures Reachable(s) && Seat(s, 0, 1) && s.threads[0] == [Outside, Store(1)] && !Alive(s, 1)
    ensures Reachable(later) && Seat(later, 0, 1) && later.threads[0] == [Outside, Note(1)] && !Alive(later, 1)
  {
    s := RetiredMeanwhile();
    var v := s.services[1];
    var s9 := Step(s, 0, Proceed);
    Updated(v, Store(1), [], v.(init := true));
    FirstGoesOn(v.(init := true), Store(1), [], Publish(1, true));
    assert s9 == Launching(v.(init := true), Publish(1, true), []);
    later := Step(s9, 0, Proceed);
    assert [Outside, Publish(1, true)][..1] + [Note(1)] == [Outside, Note(1)];
    hide Step;
    NextReachable(s, 0, Proceed);
    NextReachable(s9, 0, Proceed);
  }

  lemma StartReachable(s: State)
    requires Initial(s)
    ensures Reachable(s)
  {
    assert Run(s, []) == s;
  }

  lemma NextReachable(s: State, t: nat, c: Choice)
    requires Reachable(s)
    ensures Reachable(Step(s, t, c))
  {
    hide Initial, Step;
    var s0, schedule :| Initial(s0) && s == Run(s0, schedule);
    RunOneMore(s0, schedule, Turn(t, c));
    assert Step(s, t, c) == Run(s0, schedule + [Turn(t, c)]);
  }

  lemma {:induction false} RunOneMore(s: State, schedule: seq<Turn>, turn: Turn)
    ensures Run(s, schedule + [turn]) == Step(Run(s, schedule), turn.thread, turn.choice)
    decreases |schedule|
  {
    hide Step;
    if schedule == [] {
      assert [turn][1..] == [];
      assert Run(Step(s, turn.thread, turn.choice), []) == Step(s, turn.thread, turn.choice);
      assert [] + [turn] == [turn];
    } else {
      RunOneMore(Step(s, schedule[0].thread, schedule[0].choice), schedule[1..], turn);
      assert (schedule + [turn])[1..] == schedule[1..] + [turn];
    }
  }
}
