// The scheduler can always come to rest.

module Rest {
  // No reachable state is stuck: if threads go on one after the other, and no new work
  // comes in, every message that was sent gets taken and everything that was retired is
  // freed.

  import opened MessageQueue
  import opened Scheduler
  import opened Dispatching
  import opened Delivery

  // -------------------------------------------------------------------------
  // The shape of the stacks
  // -------------------------------------------------------------------------

  // What a thread does when nothing calls it.
  predicate Ground(f: Frame) { f.Outside? || f.Fetch? || f.Enter? || Dispatches(f) }

  predicate Shaped(stack: seq<Frame>) {
    stack != [] && Ground(stack[0]) && forall k :: 1 <= k < |stack| ==> !Ground(stack[k])
  }

  // There is a worker, and only the first frame of a stack is ground.
  ghost predicate AllShaped(s: State) {
    && (forall t :: 0 <= t < |s.threads| ==> Shaped(s.threads[t]))
    && exists t :: 0 <= t < |s.threads| && Worker(s.threads[t])
  }

  predicate Worker(stack: seq<Frame>) { stack != [] && !stack[0].Outside? }

  lemma AfterShaped(s: State, t: nat, f: Frame, c: Choice)
    ensures Ground(f) ==> Shaped(After(s, t, f, c)) && Worker(After(s, t, f, c)) == !f.Outside?
    ensures !Ground(f) ==> forall k :: 0 <= k < |After(s, t, f, c)| ==> !Ground(After(s, t, f, c)[k])
  {
    hide Share, MqOf, RefOf, Registered;
  }

  lemma StackShaped(stack: seq<Frame>, x: seq<Frame>)
    requires Shaped(stack)
    requires Ground(stack[|stack| - 1]) ==> Shaped(x) && Worker(x) == Worker([stack[|stack| - 1]])
    requires !Ground(stack[|stack| - 1]) ==> forall k :: 0 <= k < |x| ==> !Ground(x[k])
    ensures Shaped(stack[..|stack| - 1] + x) && Worker(stack[..|stack| - 1] + x) == Worker(stack)
  {
    if |stack| == 1 {
      assert stack[..0] + x == x;
    }
  }

  lemma StepShaped(s: State, t: nat, c: Choice)
    requires Inv(s) && AllShaped(s)
    ensures AllShaped(Step(s, t, c))
  {
    hide Inv, Step, After, Shaped, Worker;
    if Running(s, t) {
      TopUsable(s, t);
      StepGoes(s, t, c);
      var x := After(s, t, Top(s, t), c);
      AfterShaped(s, t, Top(s, t), c);
      TopWorks(s, t);
      StackShaped(s.threads[t], x);
      var w :| 0 <= w < |s.threads| && Worker(s.threads[w]);
      var r := Step(s, t, c);
      assert Worker(r.threads[w]) by { assert w != t ==> r.threads[w] == s.threads[w]; }
    } else {
      NoThread(s, t, c);
    }
  }

  lemma TopWorks(s: State, t: nat)
    requires Running(s, t)
    ensures Worker([Top(s, t)]) == !Top(s, t).Outside?
  {
  }

  // -------------------------------------------------------------------------
  // What gets less
  // -------------------------------------------------------------------------

  // Work that changes which handles are registered, messages on their way, queues in
  // circulation, and how far the threads have got.
  datatype Measure = Starts | Words | Places | Ranks

  // A queue that is dispatched, or that can be dropped.
  predicate Good(s: State, q: Id) { Registered(s, q) || q !in s.services || s.services[q].mq.release }

  function Weigh(k: Measure, s: State, f: Frame): nat {
    match k
    case Starts => if f.Launch? then 2 else B(f.Init? || f.InitFailed? || f.Retire?)
    case Words => if f.Send? then 3 else if f.Post? then (if Registered(s, f.id) then 2 else 5) else 0
    case Places => B(HoldsQueue(f)) + B(f.Swap?) + B(Builds(f))
    case Ranks => Rank(s, f)
  }

  function Rank(s: State, f: Frame): nat {
    match f
    case Enter(q) => if Good(s, q) then 5 else 12
    case Next(_, i, n) => if i == 0 && i < n then 4 else 18
    case Counting(_, _, _) => 20
    case Callback(_, _, _) => 19
    case Finish(_) => 17
    case Swap(_, _) => 22
    case MqRelease(q) => if q !in s.services || s.services[q].mq.release then 3 else 10
    case Drop(_) => 2
    case Free(_) => 1
    case Release(_) => 3
    case Delete(_) => 2
    case Mark(_) => 1
    case Touch(_) => 4
    case Started(_) => 11
    case Store(_) => 9
    case Publish(_, _) => 8
    case Note(_) => 1
    case _ => 0
  }

  // The share of a service.
  function OfService(k: Measure, s: State, id: Id): nat {
    if id !in s.services then 0
    else
      match k
      case Words => (if s.services[id].registered then 1 else 4) * |s.services[id].mq.msgs|
      case Places => 2 * B(s.services[id].live)
      case _ => 0
  }

  function OfGlobal(k: Measure, s: State): nat {
    match k
    case Places => |s.global|
    case Ranks => 6 * |s.global|
    case _ => 0
  }

  function StackWeight(k: Measure, s: State, stack: seq<Frame>): nat {
    if stack == [] then 0 else StackWeight(k, s, stack[..|stack| - 1]) + Weigh(k, s, stack[|stack| - 1])
  }

  function ThreadsWeight(k: Measure, s: State, threads: seq<seq<Frame>>): nat {
    if threads == [] then 0
    else ThreadsWeight(k, s, threads[..|threads| - 1]) + StackWeight(k, s, threads[|threads| - 1])
  }

  function ServicesWeight(k: Measure, s: State, n: nat): nat {
    if n == 0 then 0 else ServicesWeight(k, s, n - 1) + OfService(k, s, n - 1)
  }

  function Size(k: Measure, s: State, n: nat): nat {
    ThreadsWeight(k, s, s.threads) + ServicesWeight(k, s, n) + OfGlobal(k, s)
  }

  lemma {:induction false} StackWeightConcat(k: Measure, s: State, a: seq<Frame>, b: seq<Frame>)
    ensures StackWeight(k, s, a + b) == StackWeight(k, s, a) + StackWeight(k, s, b)
    decreases |b|
  {
    hide Weigh;
    if b == [] {
      assert a + b == a;
    } else {
      var n := |b| - 1;
      StackWeightConcat(k, s, a, b[..n]);
      assert (a + b)[..|a + b| - 1] == a + b[..n];
    }
  }

  lemma {:induction false} ThreadsWeightUpdate(k: Measure, s: State, threads: seq<seq<Frame>>, t: nat, stack: seq<Frame>)
    requires t < |threads|
    ensures ThreadsWeight(k, s, threads[t := stack]) + StackWeight(k, s, threads[t])
         == ThreadsWeight(k, s, threads) + StackWeight(k, s, stack)
    decreases |threads|
  {
    hide StackWeight;
    var n := |threads| - 1;
    if t == n {
      assert threads[t := stack][..n] == threads[..n];
    } else {
      ThreadsWeightUpdate(k, s, threads[..n], t, stack);
      assert threads[t := stack][..n] == threads[..n][t := stack];
    }
  }

  lemma BecomeWeight(k: Measure, s: State, t: nat, x: seq<Frame>)
    requires Running(s, t)
    ensures ThreadsWeight(k, s, Become(s, t, x).threads) + Weigh(k, s, Top(s, t))
         == ThreadsWeight(k, s, s.threads) + StackWeight(k, s, x)
  {
    hide Weigh, ThreadsWeight;
    var stack := s.threads[t];
    var below := stack[..|stack| - 1];
    ThreadsWeightUpdate(k, s, s.threads, t, below + x);
    StackWeightConcat(k, s, below, x);
  }

  // No handle has been unregistered, and no queue that could be dropped cannot be
  // dropped any more.
  ghost predicate NoWorse(s: State, r: State) {
    && (forall id: Id :: Registered(r, id) == Registered(s, id))
    && (forall id: Id :: Good(s, id) ==> Good(r, id))
    && (forall id: Id :: id !in s.services || s.services[id].mq.release ==> id !in r.services || r.services[id].mq.release)
  }

  lemma WeighLess(k: Measure, s: State, r: State, f: Frame)
    requires NoWorse(s, r)
    ensures Weigh(k, r, f) <= Weigh(k, s, f)
  {
    hide Registered, Good;
  }

  lemma {:induction false} StackLess(k: Measure, s: State, r: State, stack: seq<Frame>)
    requires NoWorse(s, r)
    ensures StackWeight(k, r, stack) <= StackWeight(k, s, stack)
    decreases |stack|
  {
    hide Weigh, NoWorse;
    if stack != [] {
      StackLess(k, s, r, stack[..|stack| - 1]);
      WeighLess(k, s, r, stack[|stack| - 1]);
    }
  }

  lemma {:induction false} ThreadsLess(k: Measure, s: State, r: State, threads: seq<seq<Frame>>)
    requires NoWorse(s, r)
    ensures ThreadsWeight(k, r, threads) <= ThreadsWeight(k, s, threads)
    decreases |threads|
  {
    hide StackWeight, NoWorse;
    if threads != [] {
      ThreadsLess(k, s, r, threads[..|threads| - 1]);
      StackLess(k, s, r, threads[|threads| - 1]);
    }
  }

  // Only one service changes.
  ghost predicate Only(s: State, r: State, q: Id) {
    forall id: Id :: id != q ==> (id in r.services <==> id in s.services) && (id in s.services ==> r.services[id] == s.services[id])
  }

  lemma {:induction false} ServicesChange(k: Measure, s: State, r: State, q: Id, n: nat)
    requires Only(s, r, q)
    ensures ServicesWeight(k, r, n) + (if q < n then OfService(k, s, q) else 0)
         == ServicesWeight(k, s, n) + (if q < n then OfService(k, r, q) else 0)
    decreases n
  {
    if n > 0 { ServicesChange(k, s, r, q, n - 1); }
  }

  // -------------------------------------------------------------------------
  // Every step of a busy thread makes it less
  // -------------------------------------------------------------------------

  // The part of the measure that a step of the frame `f`, on the service `q`, changes.
  function Before(k: Measure, s: State, f: Frame, q: Id): nat { Weigh(k, s, f) + OfService(k, s, q) + OfGlobal(k, s) }

  function Behind(k: Measure, s: State, r: State, x: seq<Frame>, q: Id): nat {
    StackWeight(k, s, x) + OfService(k, r, q) + OfGlobal(k, r)
  }

  ghost predicate Smaller(s: State, r: State, f: Frame, x: seq<Frame>, q: Id) {
    || Behind(Starts, s, r, x, q) < Before(Starts, s, f, q)
    || (Behind(Starts, s, r, x, q) == Before(Starts, s, f, q) && NoWorse(s, r) &&
        (|| Behind(Words, s, r, x, q) < Before(Words, s, f, q)
         || (Behind(Words, s, r, x, q) == Before(Words, s, f, q) &&
             (|| Behind(Places, s, r, x, q) < Before(Places, s, f, q)
              || (Behind(Places, s, r, x, q) == Before(Places, s, f, q)
                  && Behind(Ranks, s, r, x, q) < Before(Ranks, s, f, q))))))
  }

  // In the order of the measures.
  ghost predicate Less(s: State, r: State, n: nat) {
    || Size(Starts, r, n) < Size(Starts, s, n)
    || (Size(Starts, r, n) == Size(Starts, s, n) &&
        (|| Size(Words, r, n) < Size(Words, s, n)
         || (Size(Words, r, n) == Size(Words, s, n) &&
             (|| Size(Places, r, n) < Size(Places, s, n)
              || (Size(Places, r, n) == Size(Places, s, n) && Size(Ranks, r, n) < Size(Ranks, s, n))))))
  }

  lemma SizeChange(k: Measure, s: State, t: nat, r: State, x: seq<Frame>, q: Id, n: nat)
    requires Running(s, t) && r.threads == Become(s, t, x).threads && Only(s, r, q)
    requires NoWorse(s, r) || k == Starts
    requires q < n || OfService(k, s, q) == OfService(k, r, q)
    ensures Size(k, r, n) + Before(k, s, Top(s, t), q) <= Size(k, s, n) + Behind(k, s, r, x, q)
    ensures k == Starts ==> Size(k, r, n) + Before(k, s, Top(s, t), q) == Size(k, s, n) + Behind(k, s, r, x, q)
  {
    hide Weigh, ThreadsWeight, StackWeight, ServicesWeight, NoWorse, OfService, OfGlobal;
    BecomeWeight(k, s, t, x);
    ServicesChange(k, s, r, q, n);
    if k == Starts { StartsAlike(s, r, r.threads); } else { ThreadsLess(k, s, r, r.threads); }
  }

  lemma {:induction false} StartsAlike(s: State, r: State, threads: seq<seq<Frame>>)
    ensures ThreadsWeight(Starts, r, threads) == ThreadsWeight(Starts, s, threads)
    decreases |threads|
  {
    hide StackWeight;
    if threads != [] {
      StartsAlike(s, r, threads[..|threads| - 1]);
      StackStarts(s, r, threads[|threads| - 1]);
    }
  }

  lemma {:induction false} StackStarts(s: State, r: State, stack: seq<Frame>)
    ensures StackWeight(Starts, r, stack) == StackWeight(Starts, s, stack)
    decreases |stack|
  {
    if stack != [] { StackStarts(s, r, stack[..|stack| - 1]); }
  }

  // All services have numbers below `n`.
  ghost predicate Below(s: State, n: nat) { forall id: Id :: id in s.services ==> id < n }

  lemma SmallerLess(s: State, t: nat, r: State, x: seq<Frame>, q: Id, n: nat)
    requires Running(s, t) && r.threads == Become(s, t, x).threads && Only(s, r, q)
    requires Smaller(s, r, Top(s, t), x, q) && (q < n || (q !in s.services && q !in r.services))
    ensures Less(s, r, n)
  {
    hide Before, Behind, Size, NoWorse, Become;
    NothingOf(s, r, q, n);
    SizeChange(Starts, s, t, r, x, q, n);
    if NoWorse(s, r) {
      SizeChange(Words, s, t, r, x, q, n);
      SizeChange(Places, s, t, r, x, q, n);
      SizeChange(Ranks, s, t, r, x, q, n);
    }
  }

  lemma NothingOf(s: State, r: State, q: Id, n: nat)
    requires q < n || (q !in s.services && q !in r.services)
    ensures forall k: Measure :: q < n || OfService(k, s, q) == OfService(k, r, q)
  {
  }

  function IdOf(f: Frame): Id { if f.Outside? || f.Fetch? then 0 else f.id }

  // What is known of the service a frame works on.
  predicate Known(s: State, f: Frame) {
    && Usable(s, f)
    && (f.Drop? || f.Free? ==> s.services[f.id].mq.release && !s.services[f.id].registered)
    && (f.Mark? ==> s.services[f.id].live)
  }

  lemma TopKnown(s: State, t: nat)
    requires Inv(s) && Running(s, t)
    ensures Known(s, Top(s, t))
  {
    hide AllHold;
    TopUsable(s, t);
    var f := Top(s, t);
    if !f.Fetch? && !f.Outside? {
      Order(s, f.id);
      TopHolds(s, t, f, f.id);
      assert IdOk(s, f.id);
    }
  }

  // The thread has something to do by itself.
  predicate Busy(s: State, t: nat) {
    Running(s, t) && !Top(s, t).Outside? && (Top(s, t).Fetch? ==> s.global != [] && Good(s, s.global[0]))
  }

  lemma TwoWeigh(k: Measure, s: State, x: seq<Frame>)
    ensures |x| == 0 ==> StackWeight(k, s, x) == 0
    ensures |x| == 1 ==> StackWeight(k, s, x) == Weigh(k, s, x[0])
    ensures |x| == 2 ==> StackWeight(k, s, x) == Weigh(k, s, x[0]) + Weigh(k, s, x[1])
  {
    hide Weigh;
    if |x| == 1 { assert x[..0] == []; }
    if |x| == 2 { assert x[..1] == [x[0]] && [x[0]][..0] == []; }
  }

  lemma AllTwoWeigh(s: State, x: seq<Frame>)
    ensures forall k: Measure :: |x| == 0 ==> StackWeight(k, s, x) == 0
    ensures forall k: Measure :: |x| == 1 ==> StackWeight(k, s, x) == Weigh(k, s, x[0])
    ensures forall k: Measure :: |x| == 2 ==> StackWeight(k, s, x) == Weigh(k, s, x[0]) + Weigh(k, s, x[1])
  {
    hide Weigh, StackWeight;
    forall k: Measure
      ensures |x| == 0 ==> StackWeight(k, s, x) == 0
      ensures |x| == 1 ==> StackWeight(k, s, x) == Weigh(k, s, x[0])
      ensures |x| == 2 ==> StackWeight(k, s, x) == Weigh(k, s, x[0]) + Weigh(k, s, x[1])
    {
      TwoWeigh(k, s, x);
    }
  }

  // The step of a busy thread, with what comes in place of its last frame.
  ghost predicate GoesDown(s: State, t: nat)
    requires Running(s, t)
  {
    var f := Top(s, t);
    Only(s, Step(s, t, Proceed), IdOf(f)) && Smaller(s, Step(s, t, Proceed), f, After(s, t, f, Proceed), IdOf(f))
  }

  lemma EnterDown(s: State, t: nat)
    requires Busy(s, t) && Known(s, Top(s, t)) && Top(s, t).Enter?
    ensures GoesDown(s, t)
  {
    hide StackWeight;
    AllTwoWeigh(s, After(s, t, Top(s, t), Proceed));
  }

  lemma FetchDown(s: State, t: nat)
    requires Busy(s, t) && Known(s, Top(s, t)) && Top(s, t).Fetch?
    ensures GoesDown(s, t)
  {
    hide StackWeight;
    AllTwoWeigh(s, After(s, t, Top(s, t), Proceed));
  }

  lemma FinishDown(s: State, t: nat)
    requires Busy(s, t) && Known(s, Top(s, t)) && Top(s, t).Finish?
    ensures GoesDown(s, t)
  {
    hide StackWeight;
    AllTwoWeigh(s, After(s, t, Top(s, t), Proceed));
  }

  lemma SwapDown(s: State, t: nat)
    requires Busy(s, t) && Known(s, Top(s, t)) && Top(s, t).Swap?
    ensures GoesDown(s, t)
  {
    hide StackWeight;
    AllTwoWeigh(s, After(s, t, Top(s, t), Proceed));
  }

  lemma NextDown(s: State, t: nat)
    requires Busy(s, t) && Known(s, Top(s, t)) && Top(s, t).Next?
    ensures GoesDown(s, t)
  {
    hide GoesDown, Known;
    if Top(s, t).i >= Top(s, t).n {
      NextOver(s, t);
    } else if MqOf(s, Top(s, t).id).msgs == [] {
      NextEnds(s, t);
    } else {
      NextTakes(s, t);
    }
  }

  lemma NextOver(s: State, t: nat)
    requires Busy(s, t) && Known(s, Top(s, t)) && Top(s, t).Next? && Top(s, t).i >= Top(s, t).n
    ensures GoesDown(s, t)
  {
    hide StackWeight;
    AllTwoWeigh(s, After(s, t, Top(s, t), Proceed));
  }

  lemma NextEnds(s: State, t: nat)
    requires Busy(s, t) && Known(s, Top(s, t)) && Top(s, t).Next? && Top(s, t).i < Top(s, t).n && MqOf(s, Top(s, t).id).msgs == []
    ensures GoesDown(s, t)
  {
    hide StackWeight;
    AllTwoWeigh(s, After(s, t, Top(s, t), Proceed));
  }

  lemma NextTakes(s: State, t: nat)
    requires Busy(s, t) && Known(s, Top(s, t)) && Top(s, t).Next? && Top(s, t).i < Top(s, t).n && MqOf(s, Top(s, t).id).msgs != []
    ensures GoesDown(s, t)
  {
    hide StackWeight;
    AllTwoWeigh(s, After(s, t, Top(s, t), Proceed));
  }

  lemma CodeDown(s: State, t: nat)
    requires Busy(s, t) && Known(s, Top(s, t)) && (Top(s, t).Counting? || Top(s, t).Callback?)
    ensures GoesDown(s, t)
  {
    hide StackWeight;
    AllTwoWeigh(s, After(s, t, Top(s, t), Proceed));
  }

  lemma QueueDown(s: State, t: nat)
    requires Busy(s, t) && Known(s, Top(s, t)) && Top(s, t).MqRelease?
    ensures GoesDown(s, t)
  {
    hide StackWeight;
    AllTwoWeigh(s, After(s, t, Top(s, t), Proceed));
  }

  lemma DropDown(s: State, t: nat)
    requires Busy(s, t) && Known(s, Top(s, t)) && Top(s, t).Drop?
    ensures GoesDown(s, t)
  {
    hide GoesDown, Known;
    if MqOf(s, Top(s, t).id).msgs == [] { DropEnds(s, t); } else { DropTakes(s, t); }
  }

  lemma DropEnds(s: State, t: nat)
    requires Busy(s, t) && Known(s, Top(s, t)) && Top(s, t).Drop? && MqOf(s, Top(s, t).id).msgs == []
    ensures GoesDown(s, t)
  {
    hide StackWeight;
    AllTwoWeigh(s, After(s, t, Top(s, t), Proceed));
  }

  lemma DropTakes(s: State, t: nat)
    requires Busy(s, t) && Known(s, Top(s, t)) && Top(s, t).Drop? && MqOf(s, Top(s, t).id).msgs != []
    ensures GoesDown(s, t)
  {
    hide StackWeight;
    AllTwoWeigh(s, After(s, t, Top(s, t), Proceed));
  }

  lemma FreeDown(s: State, t: nat)
    requires Busy(s, t) && Known(s, Top(s, t)) && Top(s, t).Free?
    ensures GoesDown(s, t)
  {
    hide StackWeight;
    AllTwoWeigh(s, After(s, t, Top(s, t), Proceed));
  }

  lemma ReleaseDown(s: State, t: nat)
    requires Busy(s, t) && Known(s, Top(s, t)) && (Top(s, t).Release? || Top(s, t).Delete?)
    ensures GoesDown(s, t)
  {
    hide StackWeight;
    AllTwoWeigh(s, After(s, t, Top(s, t), Proceed));
  }

  lemma MarkDown(s: State, t: nat)
    requires Busy(s, t) && Known(s, Top(s, t)) && Top(s, t).Mark?
    ensures GoesDown(s, t)
  {
    hide StackWeight;
    AllTwoWeigh(s, After(s, t, Top(s, t), Proceed));
  }

  lemma SendDown(s: State, t: nat)
    requires Busy(s, t) && Known(s, Top(s, t)) && Top(s, t).Send?
    ensures GoesDown(s, t)
  {
    hide StackWeight;
    AllTwoWeigh(s, After(s, t, Top(s, t), Proceed));
  }

  lemma PostDown(s: State, t: nat)
    requires Busy(s, t) && Known(s, Top(s, t)) && Top(s, t).Post?
    ensures GoesDown(s, t)
  {
    hide StackWeight;
    AllTwoWeigh(s, After(s, t, Top(s, t), Proceed));
  }

  lemma TouchDown(s: State, t: nat)
    requires Busy(s, t) && Known(s, Top(s, t)) && Top(s, t).Touch?
    ensures GoesDown(s, t)
  {
    hide StackWeight;
    AllTwoWeigh(s, After(s, t, Top(s, t), Proceed));
  }

  lemma StartDown(s: State, t: nat)
    requires Busy(s, t) && Known(s, Top(s, t)) && Top(s, t).Retire?
    ensures GoesDown(s, t)
  {
    hide StackWeight;
    AllTwoWeigh(s, After(s, t, Top(s, t), Proceed));
  }

  lemma LaunchDown(s: State, t: nat)
    requires Busy(s, t) && Known(s, Top(s, t)) && Top(s, t).Launch?
    ensures GoesDown(s, t)
  {
    hide StackWeight;
    AllTwoWeigh(s, After(s, t, Top(s, t), Proceed));
  }

  lemma InitDown(s: State, t: nat)
    requires Busy(s, t) && Known(s, Top(s, t)) && (Top(s, t).Init? || Top(s, t).InitFailed?)
    ensures GoesDown(s, t)
  {
    hide StackWeight;
    AllTwoWeigh(s, After(s, t, Top(s, t), Proceed));
  }

  lemma StartedDown(s: State, t: nat)
    requires Busy(s, t) && Known(s, Top(s, t)) && Top(s, t).Started?
    ensures GoesDown(s, t)
  {
    hide StackWeight;
    AllTwoWeigh(s, After(s, t, Top(s, t), Proceed));
  }

  lemma StoreDown(s: State, t: nat)
    requires Busy(s, t) && Known(s, Top(s, t)) && Top(s, t).Store?
    ensures GoesDown(s, t)
  {
    hide StackWeight;
    AllTwoWeigh(s, After(s, t, Top(s, t), Proceed));
  }

  lemma PublishDown(s: State, t: nat)
    requires Busy(s, t) && Known(s, Top(s, t)) && (Top(s, t).Publish? || Top(s, t).Note?)
    ensures GoesDown(s, t)
  {
    hide StackWeight;
    AllTwoWeigh(s, After(s, t, Top(s, t), Proceed));
  }

  lemma BusyDown(s: State, t: nat)
    requires Inv(s) && Busy(s, t)
    ensures GoesDown(s, t)
  {
    hide Inv, Known, Good, GoesDown;
    TopKnown(s, t);
    match Top(s, t)
    case Enter(_) => EnterDown(s, t);
    case Fetch => FetchDown(s, t);
    case Finish(_) => FinishDown(s, t);
    case Swap(_, _) => SwapDown(s, t);
    case Next(_, _, _) => NextDown(s, t);
    case Counting(_, _, _) => CodeDown(s, t);
    case Callback(_, _, _) => CodeDown(s, t);
    case MqRelease(_) => QueueDown(s, t);
    case Drop(_) => DropDown(s, t);
    case Free(_) => FreeDown(s, t);
    case Release(_) => ReleaseDown(s, t);
    case Delete(_) => ReleaseDown(s, t);
    case Mark(_) => MarkDown(s, t);
    case Send(_, _) => SendDown(s, t);
    case Post(_, _) => PostDown(s, t);
    case Touch(_) => TouchDown(s, t);
    case Retire(_) => StartDown(s, t);
    case Launch(_) => LaunchDown(s, t);
    case Init(_) => InitDown(s, t);
    case InitFailed(_) => InitDown(s, t);
    case Started(_) => StartedDown(s, t);
    case Store(_) => StoreDown(s, t);
    case Publish(_, _) => PublishDown(s, t);
    case Note(_) => PublishDown(s, t);
  }

  // -------------------------------------------------------------------------
  // Rest
  // -------------------------------------------------------------------------

  // All workers are idle, nobody calls in, and the global queue is empty.
  ghost predicate Quiet(s: State) {
    s.global == [] && forall t :: 0 <= t < |s.threads| ==> s.threads[t] == [Fetch] || s.threads[t] == [Outside]
  }

  lemma IdleThread(s: State, t: nat)
    requires Running(s, t) && Shaped(s.threads[t]) && (Top(s, t).Fetch? || Top(s, t).Outside?)
    ensures s.threads[t] == [Fetch] || s.threads[t] == [Outside]
  {
    var stack := s.threads[t];
    assert |stack| == 1;
    assert stack == [stack[0]];
  }

  lemma NotBusyTop(s: State, t: nat)
    requires Running(s, t) && !Busy(s, t)
    ensures Top(s, t).Fetch? || Top(s, t).Outside?
  {
  }

  lemma WorkerBusy(s: State, t: nat)
    requires t < |s.threads| && s.threads[t] == [Fetch] && s.global != [] && Good(s, s.global[0])
    ensures Busy(s, t)
  {
  }

  // When no thread has anything to do, the scheduler is at rest.
  lemma NotBusyQuiet(s: State)
    requires Inv(s) && AllShaped(s) && forall t :: 0 <= t < |s.threads| ==> !Busy(s, t)
    ensures Quiet(s)
  {
    hide Inv, Good, Busy;
    forall t | 0 <= t < |s.threads| ensures s.threads[t] == [Fetch] || s.threads[t] == [Outside] {
      assert !Busy(s, t);
      NotBusyTop(s, t);
      IdleThread(s, t);
    }
    if s.global != [] {
      HeadIsGood(s);
      var w :| 0 <= w < |s.threads| && Worker(s.threads[w]);
      WorkerBusy(s, w);
    }
  }

  // When nobody holds anything, the queues in the global queue are those of
  // registered services and of services that are gone.
  lemma HeadIsGood(s: State)
    requires Inv(s) && s.global != []
    requires forall t :: 0 <= t < |s.threads| ==> s.threads[t] == [Fetch] || s.threads[t] == [Outside]
    ensures Good(s, s.global[0])
  {
    hide AllHold;
    var id := s.global[0];
    assert IdOk(s, id);
    forall k: Kind ensures Total(s, k, id) == 0 { InitialHoldNothing(k, s.threads, id); }
  }

  lemma {:induction false} ServicesBeyond(k: Measure, s: State, n: nat, m: nat)
    requires Below(s, n) && n <= m
    ensures ServicesWeight(k, s, m) == ServicesWeight(k, s, n)
    decreases m
  {
    if m > n { ServicesBeyond(k, s, n, m - 1); }
  }

  lemma StepLess(s: State, t: nat, n: nat) returns (m: nat)
    requires Inv(s) && Busy(s, t) && Below(s, n)
    ensures Below(Step(s, t, Proceed), m) && Less(s, Step(s, t, Proceed), m)
    ensures forall k: Measure :: Size(k, s, m) == Size(k, s, n)
  {
    hide Inv, Step, Smaller, Less, After, ThreadsWeight, ServicesWeight;
    var f := Top(s, t);
    var q := IdOf(f);
    m := if q < n then n else q + 1;
    TopUsable(s, t);
    StepGoes(s, t, Proceed);
    BusyDown(s, t);
    SmallerLess(s, t, Step(s, t, Proceed), After(s, t, f, Proceed), q, m);
    forall k: Measure ensures Size(k, s, m) == Size(k, s, n) { ServicesBeyond(k, s, n, m); }
  }

  ghost predicate AllProceed(schedule: seq<Turn>) { forall k :: 0 <= k < |schedule| ==> schedule[k].choice == Proceed }

  // Threads that have something to do go on, one step at a time.
  lemma {:induction false} ComesToRest(s: State, n: nat) returns (schedule: seq<Turn>)
    requires Inv(s) && AllShaped(s) && Below(s, n)
    ensures AllProceed(schedule) && Quiet(Run(s, schedule))
    decreases Size(Starts, s, n), Size(Words, s, n), Size(Places, s, n), Size(Ranks, s, n)
  {
    hide Inv, Step, Busy, Size, AllShaped, Quiet, Below;
    if t :| 0 <= t < |s.threads| && Busy(s, t) {
      var m := StepLess(s, t, n);
      var r := Step(s, t, Proceed);
      StepKeeps(s, t, Proceed);
      StepShaped(s, t, Proceed);
      var rest := ComesToRest(r, m);
      schedule := [Turn(t, Proceed)] + rest;
      assert schedule[1..] == rest;
    } else {
      NotBusyQuiet(s);
      schedule := [];
    }
  }

  lemma {:induction false} RunShaped(s: State, schedule: seq<Turn>)
    requires Inv(s) && AllShaped(s)
    ensures AllShaped(Run(s, schedule))
    decreases |schedule|
  {
    hide Inv, Step, AllShaped;
    if schedule != [] {
      StepKeeps(s, schedule[0].thread, schedule[0].choice);
      StepShaped(s, schedule[0].thread, schedule[0].choice);
      RunShaped(Step(s, schedule[0].thread, schedule[0].choice), schedule[1..]);
    }
  }

  lemma InitialShaped(s: State)
    requires Initial(s) && exists t :: 0 <= t < |s.threads| && s.threads[t] == [Fetch]
    ensures AllShaped(s)
  {
    var t :| 0 <= t < |s.threads| && s.threads[t] == [Fetch];
    assert Worker(s.threads[t]);
  }

  lemma {:induction false} RunAdds(s: State, a: seq<Turn>, b: seq<Turn>)
    ensures Run(Run(s, a), b) == Run(s, a + b)
    decreases |a|
  {
    hide Step;
    if a == [] {
      assert a + b == b;
    } else {
      RunAdds(Step(s, a[0].thread, a[0].choice), a[1..], b);
      assert (a + b)[1..] == a[1..] + b;
    }
  }

  // Some number is above those of all services.
  lemma {:induction false} Bounded(ids: set<Id>) returns (n: nat)
    ensures forall id :: id in ids ==> id < n
    decreases ids
  {
    if ids == {} {
      n := 0;
    } else {
      var id :| id in ids;
      var m := Bounded(ids - {id});
      n := if id < m then m else id + 1;
      forall x | x in ids ensures x < n { assert x == id || x in ids - {id}; }
    }
  }

  // From every state that a run with at least one worker has led to, the run can go on,
  // with no new work, to a state at rest. Every message that was ever sent has then
  // been taken, every service that is still there is registered, unused and out of
  // messages, and the queue of every other one has been freed.
  lemma CanComeToRest(s0: State, schedule: seq<Turn>) returns (more: seq<Turn>)
    requires Initial(s0) && exists t :: 0 <= t < |s0.threads| && s0.threads[t] == [Fetch]
    ensures AllProceed(more)
    ensures var r := Run(s0, schedule + more);
            && Quiet(r)
            && forall id: Id :: AtRest(r, id) && multiset(Msgs(Log(r.taken, id))) == multiset(Sent(s0, schedule + more, id))
  {
    hide Initial, Inv, Run, AllShaped, Sent, Msgs, Log, Quiet;
    InitialInv(s0);
    InitialShaped(s0);
    RunKeeps(s0, schedule);
    RunShaped(s0, schedule);
    var s := Run(s0, schedule);
    var n := Bounded(s.services.Keys);
    more := ComesToRest(s, n);
    RunAdds(s0, schedule, more);
    var r := Run(s0, schedule + more);
    RunReachable(s0, schedule + more);
    forall id: Id
      ensures AtRest(r, id) && multiset(Msgs(Log(r.taken, id))) == multiset(Sent(s0, schedule + more, id))
    {
      RestFor(s0, schedule + more, id);
    }
  }

  lemma RunReachable(s0: State, schedule: seq<Turn>)
    requires Initial(s0)
    ensures Reachable(Run(s0, schedule))
  {
  }

  // Nothing is left to do for the service.
  ghost predicate AtRest(s: State, id: Id) {
    && (id in s.services ==>
          s.services[id].registered && s.services[id].live && s.services[id].ref == 1 && s.services[id].mq.msgs == [])
    && (id in s.used && id !in s.services ==> multiset(s.freed)[id] == 1)
  }

  lemma RestFor(s0: State, schedule: seq<Turn>, id: Id)
    requires Initial(s0) && Quiet(Run(s0, schedule))
    ensures var r := Run(s0, schedule);
            AtRest(r, id) && multiset(Msgs(Log(r.taken, id))) == multiset(Sent(s0, schedule, id))
  {
    hide Initial, Run, Sent, Msgs, Reachable;
    var r := Run(s0, schedule);
    RunReachable(s0, schedule);
    ReachableInv(r);
    assert IdOk(r, id);
    EachMessageOnce(r, id);
    if id in r.used { QuietMeansDone(r, id); }
    forall msg: Message ensures Times(r.threads, Post(id, msg)) == 0 { NoPostsAtStart(r.threads, Post(id, msg)); }
    AllSentPushed(s0, schedule, id);
  }
}
