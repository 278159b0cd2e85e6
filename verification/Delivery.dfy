// Messages from sender to service.

module Delivery {
  // What is sent is pushed, what is pushed is dispatched, and what is dropped is told to
  // its sender.

  import opened MessageQueue
  import opened Scheduler
  import opened Dispatching

  // -------------------------------------------------------------------------
  // Where a thread goes
  // -------------------------------------------------------------------------

  predicate Running(s: State, t: nat) { t < |s.threads| && s.threads[t] != [] }

  function Top(s: State, t: nat): Frame
    requires Running(s, t)
  {
    s.threads[t][|s.threads[t]| - 1]
  }

  function MqOf(s: State, q: Id): Mq { if q in s.services then s.services[q].mq else Mq([], false, false) }

  function RefOf(s: State, id: Id): nat { if id in s.services then s.services[id].ref else 0 }

  function CodeOf(f: Frame, c: Choice, after: seq<Frame>): seq<Frame> {
    if c.Call? then (if IsCall(c.frame) then [f, c.frame] else [f]) else after
  }

  // How many messages are taken in all, when the first one is.
  function Share(s: State, t: nat, q: Id, i: nat, n: nat): nat {
    if i == 0 && t < |s.weights| && s.weights[t] >= 0 then Shift(|MqOf(s, q).msgs|, s.weights[t]) else n
  }

  // The frames that come in place of the last one.
  function After(s: State, t: nat, f: Frame, c: Choice): seq<Frame> {
    match f
    case Outside => if c.Call? then CodeOf(f, c, []) else [f]
    case Fetch => if s.global == [] then [f] else [Enter(s.global[0])]
    case Enter(q) => if Registered(s, q) then [Next(q, 0, 1)] else [Fetch, MqRelease(q)]
    case Next(q, i, n) =>
      if i >= n then [Finish(q)] else if MqOf(s, q).msgs == [] then [Fetch, Release(q)] else [Counting(q, i, n)]
    case Counting(q, i, n) => [Callback(q, i, Share(s, t, q, i, n))]
    case Callback(q, i, n) => CodeOf(f, c, [Next(q, i + 1, n)])
    case Finish(q) => if s.global == [] then [Enter(q), Release(q)] else [Swap(q, s.global[0])]
    case Swap(q, nq) => [Enter(nq), Release(q)]
    case MqRelease(q) => if MqOf(s, q).release then [Drop(q)] else []
    case Drop(q) =>
      if MqOf(s, q).msgs == [] then [Free(q)] else [f, Send(MqOf(s, q).msgs[0].source, Message(q, 0, 0))]
    case Release(id) => if RefOf(s, id) == 1 then [Delete(id)] else []
    case Delete(id) => CodeOf(f, c, [Mark(id)])
    case Send(id, msg) => if Registered(s, id) then [Post(id, msg)] else []
    case Post(id, msg) => [Release(id)]
    case Touch(id) => if Registered(s, id) then [Release(id)] else []
    case Retire(id) => if Registered(s, id) then [Release(id)] else []
    case Launch(id) => if id in s.used || id == 0 then [] else [Init(id)]
    case Init(id) => CodeOf(f, c, if c.GiveUp? then [InitFailed(id), Release(id)] else [Started(id)])
    case InitFailed(id) => if Registered(s, id) then [MqRelease(id), Release(id)] else [MqRelease(id)]
    case Started(id) => if RefOf(s, id) == 1 then [Publish(id, false), Delete(id)] else [Store(id)]
    case Store(id) => [Publish(id, true)]
    case Publish(id, told) => if told then [Note(id)] else []
    case _ => []
  }

  // The frame finds the service it works on, and what it gives up.
  predicate Usable(s: State, f: Frame) {
    && (f.Next? || f.Counting? || f.MqRelease? || f.Drop? || f.Free? || f.Mark? || f.Post? ==> f.id in s.services)
    && (f.Store? ==> f.id in s.services)
    && (f.Release? || f.Started? ==> f.id in s.services && s.services[f.id].ref > 0)
  }

  lemma TopUsable(s: State, t: nat)
    requires Inv(s) && Running(s, t)
    ensures Usable(s, Top(s, t))
  {
    hide AllHold;
    var f := Top(s, t);
    if !f.Fetch? && !f.Outside? {
      Order(s, f.id);
      TopHolds(s, t, f, f.id);
      assert IdOk(s, f.id);
    }
  }

  lemma StepGoes(s: State, t: nat, c: Choice)
    requires Running(s, t) && Usable(s, Top(s, t))
    ensures Step(s, t, c).threads == Become(s, t, After(s, t, Top(s, t), c)).threads
  {
    hide Step, After;
    var f := Top(s, t);
    StaysSame(s, t);
    if f.Outside? || f.Callback? || f.Delete? || f.Init? {
      CodeGoes(s, t, c);
    } else if f.Enter? || f.Next? || f.Counting? {
      WorkerGoes(s, t, c, f);
    } else if f.Drop? || f.Release? || f.Mark? || f.Post? || f.Started? {
      OtherGoes(s, t, c, f);
    } else {
      PlainGoes(s, t, c);
    }
  }

  lemma CodeGoes(s: State, t: nat, c: Choice)
    requires Running(s, t) && Become(s, t, [Top(s, t)]) == s
    requires Top(s, t).Outside? || Top(s, t).Callback? || Top(s, t).Delete? || Top(s, t).Init?
    ensures Step(s, t, c).threads == Become(s, t, After(s, t, Top(s, t), c)).threads
  {
  }

  lemma PlainGoes(s: State, t: nat, c: Choice)
    requires Running(s, t) && Become(s, t, [Top(s, t)]) == s && Usable(s, Top(s, t))
    requires var f := Top(s, t);
             && !f.Outside? && !f.Callback? && !f.Delete? && !f.Init? && !f.Enter? && !f.Next? && !f.Counting?
             && !f.Drop? && !f.Release? && !f.Mark? && !f.Post? && !f.Started?
    ensures Step(s, t, c).threads == Become(s, t, After(s, t, Top(s, t), c)).threads
  {
    hide StepEnter, StepNext, StepCounting, StepDrop, StepRelease, StepMark, StepPost, StepStarted, UserCode;
  }

  lemma StaysSame(s: State, t: nat)
    requires Running(s, t)
    ensures Become(s, t, [Top(s, t)]) == s
  {
    assert s.threads[t][..|s.threads[t]| - 1] + [Top(s, t)] == s.threads[t];
  }

  lemma WorkerGoes(s: State, t: nat, c: Choice, f: Frame)
    requires At(s, t, f) && Usable(s, f) && (f.Enter? || f.Next? || f.Counting?)
    ensures Step(s, t, c).threads == Become(s, t, After(s, t, f, c)).threads
  {
    hide Shift;
  }

  lemma OtherGoes(s: State, t: nat, c: Choice, f: Frame)
    requires At(s, t, f) && Usable(s, f) && (f.Drop? || f.Release? || f.Mark? || f.Post? || f.Started?)
    ensures Step(s, t, c).threads == Become(s, t, After(s, t, f, c)).threads
  {
  }

  // Steps of other threads leave the thread where it is.
  lemma OtherStays(s: State, t: nat, u: nat, c: Choice)
    requires Running(s, t) && u != t
    requires Inv(s)
    ensures Running(Step(s, u, c), t) && Step(s, u, c).threads[t] == s.threads[t]
  {
    hide Step, After, Inv;
    if Running(s, u) {
      TopUsable(s, u);
      StepGoes(s, u, c);
    } else {
      NoThread(s, u, c);
    }
  }

  predicate Without(schedule: seq<Turn>, t: nat) { forall k :: 0 <= k < |schedule| ==> schedule[k].thread != t }

  lemma {:induction false} OthersStay(s: State, t: nat, schedule: seq<Turn>)
    requires Running(s, t) && Inv(s) && Without(schedule, t)
    ensures Running(Run(s, schedule), t) && Run(s, schedule).threads[t] == s.threads[t] && Inv(Run(s, schedule))
    decreases |schedule|
  {
    hide Step, Inv;
    if schedule != [] {
      var u, c := schedule[0].thread, schedule[0].choice;
      OtherStays(s, t, u, c);
      StepKeeps(s, u, c);
      OthersStay(Step(s, u, c), t, schedule[1..]);
    }
  }

  // -------------------------------------------------------------------------
  // What is sent is pushed
  // -------------------------------------------------------------------------

  // How often a frame stands in the stacks.
  function Times(threads: seq<seq<Frame>>, f: Frame): nat {
    if threads == [] then 0
    else Times(threads[..|threads| - 1], f) + multiset(threads[|threads| - 1])[f]
  }

  lemma {:induction false} TimesUpdate(threads: seq<seq<Frame>>, t: nat, stack: seq<Frame>, f: Frame)
    requires t < |threads|
    ensures Times(threads[t := stack], f) + multiset(threads[t])[f] == Times(threads, f) + multiset(stack)[f]
    decreases |threads|
  {
    var n := |threads| - 1;
    if t == n {
      assert threads[t := stack][..n] == threads[..n];
    } else {
      TimesUpdate(threads[..n], t, stack, f);
      assert threads[t := stack][..n] == threads[..n][t := stack];
    }
  }

  lemma TimesBecome(s: State, t: nat, frames: seq<Frame>, f: Frame)
    requires Running(s, t)
    ensures Times(Become(s, t, frames).threads, f) + B(Top(s, t) == f) == Times(s.threads, f) + multiset(frames)[f]
  {
    hide Times;
    var stack := s.threads[t];
    var below := stack[..|stack| - 1];
    assert stack == below + [Top(s, t)];
    TimesUpdate(s.threads, t, below + frames, f);
  }

  // The message that a turn sends to the service: its handle is looked up, and is
  // registered.
  function SentBy(s: State, t: nat, id: Id): seq<Message> {
    if Running(s, t) && Top(s, t).Send? && Top(s, t).id == id && Registered(s, id) then [Top(s, t).msg] else []
  }

  // The message that a turn pushes into the queue of the service.
  function PushedBy(s: State, t: nat, id: Id): seq<Message> {
    if Running(s, t) && Top(s, t).Post? && Top(s, t).id == id then [Top(s, t).msg] else []
  }

  // The messages that are sent to the service in a run.
  function Sent(s: State, schedule: seq<Turn>, id: Id): seq<Message>
    decreases |schedule|
  {
    if schedule == [] then []
    else SentBy(s, schedule[0].thread, id) + Sent(Step(s, schedule[0].thread, schedule[0].choice), schedule[1..], id)
  }

  lemma AfterPosts(s: State, t: nat, c: Choice, id: Id, msg: Message)
    requires Running(s, t)
    ensures multiset(After(s, t, Top(s, t), c))[Post(id, msg)] == multiset(SentBy(s, t, id))[msg]
  {
    hide After, Registered;
    var f := Top(s, t);
    if f.Send? {
      LookedUp(s, t, f.id, f.msg, c);
    } else {
      NewFrames(s, t, f, c);
    }
  }

  // Only a lookup makes a frame that pushes.
  lemma NewFrames(s: State, t: nat, f: Frame, c: Choice)
    ensures !f.Send? ==> forall k :: 0 <= k < |After(s, t, f, c)| ==> !After(s, t, f, c)[k].Post?
  {
    hide Share, MqOf, RefOf, Registered;
  }

  lemma LookedUp(s: State, t: nat, id: Id, msg: Message, c: Choice)
    ensures After(s, t, Send(id, msg), c) == if Registered(s, id) then [Post(id, msg)] else []
  {
  }

  // The thread is about to push the message into the queue of the service: it does
  // so with its next step, and no other log changes.
  lemma PostPushes(s: State, t: nat, c: Choice, id: Id, msg: Message)
    requires Inv(s) && At(s, t, Post(id, msg))
    ensures var r := Step(s, t, c);
            && id in s.services && id in r.services && r.services[id].mq.inGlobal
            && r.services[id].mq.msgs == s.services[id].mq.msgs + [msg]
            && Log(r.pushed, id) == Log(s.pushed, id) + [msg]
            && forall other: Id :: other != id ==> Log(r.pushed, other) == Log(s.pushed, other)
  {
    hide Inv;
    TopUsable(s, t);
  }

  // What only few steps change: the log of pushed messages, and that a handle is not
  // registered.
  ghost predicate Steady(s: State, r: State, f: Frame, id: Id) {
    && (!f.Post? ==> r.pushed == s.pushed)
    && (id in s.used && !Registered(s, id) ==> id in r.used && !Registered(r, id))
  }

  lemma StepSteady(s: State, t: nat, c: Choice, id: Id)
    requires Running(s, t)
    ensures Steady(s, Step(s, t, c), Top(s, t), id)
  {
    hide Step, Steady;
    var f := Top(s, t);
    if f.Enter? || f.Next? || f.Counting? || f.Fetch? || f.Finish? || f.Swap? {
      WorkerSteady(s, t, c, id);
    } else if f.Drop? || f.Release? || f.Mark? || f.Post? || f.Started? || f.Free? {
      OtherSteady(s, t, c, id);
    } else if f.Send? || f.Touch? || f.Retire? || f.Launch? || f.InitFailed? || f.Store? {
      HandleSteady(s, t, c, id);
    } else {
      PlainSteady(s, t, c, id);
    }
  }

  lemma WorkerSteady(s: State, t: nat, c: Choice, id: Id)
    requires Running(s, t)
    requires var f := Top(s, t); f.Enter? || f.Next? || f.Counting? || f.Fetch? || f.Finish? || f.Swap?
    ensures Steady(s, Step(s, t, c), Top(s, t), id)
  {
    hide Shift;
  }

  lemma OtherSteady(s: State, t: nat, c: Choice, id: Id)
    requires Running(s, t)
    requires var f := Top(s, t); f.Drop? || f.Release? || f.Mark? || f.Post? || f.Started? || f.Free?
    ensures Steady(s, Step(s, t, c), Top(s, t), id)
  {
  }

  lemma HandleSteady(s: State, t: nat, c: Choice, id: Id)
    requires Running(s, t)
    requires var f := Top(s, t); f.Send? || f.Touch? || f.Retire? || f.Launch? || f.InitFailed? || f.Store?
    ensures Steady(s, Step(s, t, c), Top(s, t), id)
  {
  }

  lemma PlainSteady(s: State, t: nat, c: Choice, id: Id)
    requires Running(s, t)
    requires var f := Top(s, t);
             f.Outside? || f.Callback? || f.Delete? || f.Init? || f.MqRelease? || f.Publish? || f.Note?
    ensures Steady(s, Step(s, t, c), Top(s, t), id)
  {
    hide StepEnter, StepNext, StepCounting, StepDrop, StepRelease, StepMark, StepPost, StepStarted;
  }

  lemma StepLogs(s: State, t: nat, c: Choice, id: Id)
    requires Inv(s)
    ensures Log(Step(s, t, c).pushed, id) == Log(s.pushed, id) + PushedBy(s, t, id)
  {
    hide Step, Inv, Log;
    if Running(s, t) && Top(s, t).Post? {
      PostPushes(s, t, c, Top(s, t).id, Top(s, t).msg);
    } else if Running(s, t) {
      StepSteady(s, t, c, id);
    } else {
      NoThread(s, t, c);
    }
  }

  lemma StepTimes(s: State, t: nat, c: Choice, id: Id, msg: Message)
    requires Inv(s)
    ensures Times(Step(s, t, c).threads, Post(id, msg)) + multiset(PushedBy(s, t, id))[msg]
         == Times(s.threads, Post(id, msg)) + multiset(SentBy(s, t, id))[msg]
  {
    hide Step, Inv, After, Times;
    if Running(s, t) {
      TopUsable(s, t);
      StepGoes(s, t, c);
      TimesBecome(s, t, After(s, t, Top(s, t), c), Post(id, msg));
      AfterPosts(s, t, c, id, msg);
    } else {
      NoThread(s, t, c);
    }
  }

  // Over any run: every message that is sent to a service is pushed into its queue
  // once, or a thread is about to push it, and no other message is pushed.
  lemma {:induction false} SentIsPushed(s: State, schedule: seq<Turn>, id: Id, msg: Message)
    requires Inv(s)
    ensures var r := Run(s, schedule);
            multiset(Log(r.pushed, id))[msg] + Times(r.threads, Post(id, msg)) ==
            multiset(Log(s.pushed, id))[msg] + Times(s.threads, Post(id, msg)) + multiset(Sent(s, schedule, id))[msg]
    decreases |schedule|
  {
    hide Step, Inv, Log, Times, SentBy, PushedBy;
    if schedule != [] {
      var t, c := schedule[0].thread, schedule[0].choice;
      var r := Step(s, t, c);
      StepKeeps(s, t, c);
      SentIsPushed(r, schedule[1..], id, msg);
      StepTimes(s, t, c, id, msg);
      StepLogs(s, t, c, id);
    }
  }

  // In runs from the start, as long as no thread is about to push, the messages
  // pushed are those that were sent.
  lemma AllSentPushed(s: State, schedule: seq<Turn>, id: Id)
    requires Initial(s)
    requires forall msg: Message :: Times(Run(s, schedule).threads, Post(id, msg)) == 0
    ensures multiset(Log(Run(s, schedule).pushed, id)) == multiset(Sent(s, schedule, id))
  {
    hide Run, Sent;
    InitialInv(s);
    var a, b := multiset(Log(Run(s, schedule).pushed, id)), multiset(Sent(s, schedule, id));
    forall msg: Message ensures a[msg] == b[msg] {
      SentIsPushed(s, schedule, id, msg);
      NoPostsAtStart(s.threads, Post(id, msg));
    }
  }

  lemma {:induction false} NoPostsAtStart(threads: seq<seq<Frame>>, f: Frame)
    requires forall t :: 0 <= t < |threads| ==> threads[t] == [Fetch] || threads[t] == [Outside]
    requires f.Post?
    ensures Times(threads, f) == 0
  {
    if threads != [] { NoPostsAtStart(threads[..|threads| - 1], f); }
  }

  // A lookup that finds the handle leads to exactly one push of that message,
  // whatever other threads do before it.
  lemma SendLeadsToPush(s: State, t: nat, id: Id, msg: Message, c: Choice, schedule: seq<Turn>, d: Choice)
    requires Reachable(s) && At(s, t, Send(id, msg)) && Registered(s, id) && Without(schedule, t)
    ensures var u := Run(Step(s, t, c), schedule);
            var r := Step(u, t, d);
            && At(u, t, Post(id, msg)) && id in u.services && id in r.services
            && Log(r.pushed, id) == Log(u.pushed, id) + [msg]
            && r.services[id].mq.msgs == u.services[id].mq.msgs + [msg]
            && At(r, t, Release(id))
  {
    hide Step, Run, Inv, Log, Reachable;
    ReachableInv(s);
    var v := Step(s, t, c);
    var u := Run(v, schedule);
    TopUsable(s, t);
    StepGoes(s, t, c);
    StepKeeps(s, t, c);
    OthersStay(v, t, schedule);
    PostPushes(u, t, d, id, msg);
    TopUsable(u, t);
    StepGoes(u, t, d);
  }

  // A message that is dropped with its queue is taken as such, and its sender is told,
  // if it is still there when it is looked up.
  lemma DroppedIsTold(s: State, t: nat, q: Id, c: Choice, schedule: seq<Turn>, d: Choice)
    requires Reachable(s) && At(s, t, Drop(q)) && MqOf(s, q).msgs != [] && Without(schedule, t)
    ensures var msg := MqOf(s, q).msgs[0];
            var r := Step(s, t, c);
            var u := Run(r, schedule);
            && q in r.services && r.services[q].mq.msgs == MqOf(s, q).msgs[1..]
            && Log(r.taken, q) == Log(s.taken, q) + [Taken(msg, true)]
            && At(u, t, Send(msg.source, Message(q, 0, 0)))
            && (Registered(u, msg.source) ==> At(Step(u, t, d), t, Post(msg.source, Message(q, 0, 0))))
  {
    hide Step, Run, Inv, Reachable;
    ReachableInv(s);
    TopUsable(s, t);
    StepGoes(s, t, c);
    StepKeeps(s, t, c);
    DropTakes(s, t, q, c);
    OthersStay(Step(s, t, c), t, schedule);
    var u := Run(Step(s, t, c), schedule);
    TopUsable(u, t);
    StepGoes(u, t, d);
  }

  lemma DropTakes(s: State, t: nat, q: Id, c: Choice)
    requires At(s, t, Drop(q)) && q in s.services && MqOf(s, q).msgs != []
    ensures var r := Step(s, t, c);
            && q in r.services && r.services[q].mq.msgs == MqOf(s, q).msgs[1..]
            && Log(r.taken, q) == Log(s.taken, q) + [Taken(MqOf(s, q).msgs[0], true)]
  {
  }

  // -------------------------------------------------------------------------
  // Handles and the global queue
  // -------------------------------------------------------------------------

  // Retiring a handle takes it out of the storage.
  lemma RetireRetires(s: State, t: nat, id: Id, c: Choice)
    requires At(s, t, Retire(id))
    ensures !Registered(Step(s, t, c), id)
  {
  }

  lemma StepRetired(s: State, t: nat, c: Choice, id: Id)
    requires id in s.used && !Registered(s, id)
    ensures id in Step(s, t, c).used && !Registered(Step(s, t, c), id)
  {
    hide Step, Registered;
    if Running(s, t) { StepSteady(s, t, c, id); } else { NoThread(s, t, c); }
  }

  // A handle that was used and is not registered never is again, and nothing more
  // is sent to it.
  lemma {:induction false} RetiredForGood(s: State, schedule: seq<Turn>, id: Id)
    requires id in s.used && !Registered(s, id)
    ensures !Registered(Run(s, schedule), id) && id in Run(s, schedule).used && Sent(s, schedule, id) == []
    decreases |schedule|
  {
    hide Step, Registered;
    if schedule != [] {
      StepRetired(s, schedule[0].thread, schedule[0].choice, id);
      RetiredForGood(Step(s, schedule[0].thread, schedule[0].choice), schedule[1..], id);
    }
  }

  // A handle that is retired is gone in every run from there on, and nothing more is
  // sent to it.
  lemma RetireIsFinal(s: State, t: nat, id: Id, c: Choice, schedule: seq<Turn>)
    requires At(s, t, Retire(id)) && id in s.used
    ensures var r := Step(s, t, c);
            !Registered(Run(r, schedule), id) && Sent(r, schedule, id) == []
  {
    hide Step, Registered, Run, Sent;
    RetireRetires(s, t, id, c);
    StillUsed(s, t, id, c);
    RetiredForGood(Step(s, t, c), schedule, id);
  }

  lemma StillUsed(s: State, t: nat, id: Id, c: Choice)
    requires At(s, t, Retire(id)) && id in s.used
    ensures id in Step(s, t, c).used
  {
  }

  // The global queue is served in order: a step takes its first queue, which the
  // thread then has in its hands, or adds one at its end, or leaves it.
  lemma GlobalInOrder(s: State, t: nat, c: Choice)
    requires Inv(s) && Running(s, t)
    ensures InOrder(s, Step(s, t, c), t)
  {
    hide Step, Inv, InOrder, After;
    TopUsable(s, t);
    StepGoes(s, t, c);
    var f := Top(s, t);
    if (f.Fetch? || f.Finish?) && s.global != [] {
      TakesQueue(s, t, c);
    } else if f.Swap? || f.MqRelease? || f.Publish? || f.Post? || f.Mark? {
      AddsQueue(s, t, c);
    } else {
      LeavesQueues(s, t, c);
    }
  }

  ghost predicate InOrder(s: State, r: State, t: nat) {
    || r.global == s.global
    || (s.global != [] && r.global == s.global[1..] && Running(r, t) && Has(Top(r, t), s.global[0]))
    || (exists q :: r.global == s.global + [q])
  }

  lemma TakesQueue(s: State, t: nat, c: Choice)
    requires Running(s, t) && (Top(s, t).Fetch? || Top(s, t).Finish?) && s.global != []
    ensures InOrder(s, Step(s, t, c), t)
  {
  }

  lemma AddsQueue(s: State, t: nat, c: Choice)
    requires Running(s, t) && (Top(s, t).Swap? || Top(s, t).MqRelease? || Top(s, t).Publish? || Top(s, t).Post? || Top(s, t).Mark?)
    ensures InOrder(s, Step(s, t, c), t)
  {
    var q := Top(s, t).id;
    var r := Step(s, t, c);
    assert r.global == s.global || r.global == s.global + [q];
  }

  lemma LeavesQueues(s: State, t: nat, c: Choice)
    requires Running(s, t)
    requires var f := Top(s, t);
             !f.Swap? && !f.MqRelease? && !f.Publish? && !f.Post? && !f.Mark? && ((!f.Fetch? && !f.Finish?) || s.global == [])
    ensures Step(s, t, c).global == s.global && InOrder(s, Step(s, t, c), t)
  {
    hide Step, Has;
    var f := Top(s, t);
    if f.Enter? || f.Next? || f.Counting? || f.Drop? || f.Release? || f.Started? {
      SomeLeave(s, t, c);
    } else {
      OthersLeave(s, t, c);
    }
  }

  lemma SomeLeave(s: State, t: nat, c: Choice)
    requires Running(s, t)
    requires var f := Top(s, t); f.Enter? || f.Next? || f.Counting? || f.Drop? || f.Release? || f.Started?
    ensures Step(s, t, c).global == s.global
  {
    hide Shift;
  }

  lemma OthersLeave(s: State, t: nat, c: Choice)
    requires Running(s, t)
    requires var f := Top(s, t);
             && !f.Swap? && !f.MqRelease? && !f.Publish? && !f.Post? && !f.Mark? && ((!f.Fetch? && !f.Finish?) || s.global == [])
             && !f.Enter? && !f.Next? && !f.Counting? && !f.Drop? && !f.Release? && !f.Started?
    ensures Step(s, t, c).global == s.global
  {
    hide StepEnter, StepNext, StepCounting, StepDrop, StepRelease, StepMark, StepPost, StepStarted;
  }

  // -------------------------------------------------------------------------
  // A round
  // -------------------------------------------------------------------------

  // The thread runs alone, and user code goes on without calling in.
  function Alone(s: State, t: nat, k: nat): State
    decreases k
  {
    if k == 0 then s else Alone(Step(s, t, Proceed), t, k - 1)
  }

  // How often the service handles a message meanwhile.
  function Calls(s: State, t: nat, k: nat): nat
    decreases k
  {
    if k == 0 then 0
    else B(Running(s, t) && Top(s, t).Callback?) + Calls(Step(s, t, Proceed), t, k - 1)
  }

  lemma {:induction false} CallsAdd(s: State, t: nat, j: nat, k: nat)
    ensures Calls(s, t, j + k) == Calls(s, t, j) + Calls(Alone(s, t, j), t, k)
    decreases j
  {
    hide Step;
    if j > 0 { CallsAdd(Step(s, t, Proceed), t, j - 1, k); }
  }

  // What a round takes of `m` messages: one, or the share that the weight of the
  // worker gives it.
  function RoundShare(s: State, t: nat, m: nat): nat
    requires m > 0
  {
    if t < |s.weights| && s.weights[t] >= 0 && Shift(m - 1, s.weights[t]) > 1 then Shift(m - 1, s.weights[t]) else 1
  }

  lemma {:induction false} ShiftLess(n: nat, w: nat)
    ensures Shift(n, w) <= n
    decreases w
  {
    if w > 0 { ShiftLess(n / 2, w - 1); }
  }

  // The thread takes the first messages of a queue, and hands them to the service.
  ghost predicate TookFirst(s: State, r: State, q: Id, k: nat) {
    && q in s.services && q in r.services && k <= |s.services[q].mq.msgs|
    && r.services[q].mq.msgs == s.services[q].mq.msgs[k..]
    && Log(r.taken, q) == Log(s.taken, q) + Handled(s.services[q].mq.msgs[..k])
    && r.weights == s.weights
  }

  function Handled(msgs: seq<Message>): (r: seq<Taken>)
    ensures |r| == |msgs|
  {
    if msgs == [] then [] else Handled(msgs[..|msgs| - 1]) + [Taken(msgs[|msgs| - 1], false)]
  }

  lemma {:induction false} HandledConcat(a: seq<Message>, b: seq<Message>)
    ensures Handled(a + b) == Handled(a) + Handled(b)
    decreases |b|
  {
    if b == [] {
      assert a + b == a;
    } else {
      HandledConcat(a, b[..|b| - 1]);
      assert (a + b)[..|a + b| - 1] == a + b[..|b| - 1];
    }
  }

  lemma TookMore(s: State, u: State, r: State, q: Id, j: nat, k: nat)
    requires TookFirst(s, u, q, j) && TookFirst(u, r, q, k)
    ensures TookFirst(s, r, q, j + k)
  {
    hide Handled, Log;
    var msgs := s.services[q].mq.msgs;
    assert msgs[..j + k] == msgs[..j] + msgs[j..][..k];
    HandledConcat(msgs[..j], msgs[j..][..k]);
  }

  // One message: it is taken, and the service handles it.
  lemma TakesOne(s: State, t: nat, q: Id, i: nat, n: nat)
    requires At(s, t, Next(q, i, n)) && q in s.services && s.services[q].mq.msgs != [] && i < n
    ensures var u := Step(s, t, Proceed);
            && At(u, t, Counting(q, i, n)) && TookFirst(s, u, q, 1)
  {
    var msgs := s.services[q].mq.msgs;
    assert msgs[..1] == [msgs[0]] && [msgs[0]][..0] == [];
  }

  lemma HandsOver(s: State, t: nat, q: Id, i: nat, n: nat)
    requires At(s, t, Counting(q, i, n)) && q in s.services
    ensures var u := Step(s, t, Proceed);
            var r := Step(u, t, Proceed);
            && At(u, t, Callback(q, i, Share(s, t, q, i, n))) && At(r, t, Next(q, i + 1, Share(s, t, q, i, n)))
            && TookFirst(s, u, q, 0) && TookFirst(u, r, q, 0)
  {
    hide Shift;
  }

  lemma OneByOne(s: State, t: nat, q: Id, i: nat, n: nat) returns (r: State)
    requires At(s, t, Next(q, i, n)) && q in s.services && s.services[q].mq.msgs != [] && i < n
    ensures r == Alone(s, t, 3) && At(r, t, Next(q, i + 1, Share(Step(s, t, Proceed), t, q, i, n)))
    ensures TookFirst(s, r, q, 1) && MqOf(Step(s, t, Proceed), q).msgs == s.services[q].mq.msgs[1..]
    ensures Step(s, t, Proceed).weights == s.weights && Calls(s, t, 3) == 1
  {
    hide Step, TookFirst, Share;
    TakesOne(s, t, q, i, n);
    var u := Step(s, t, Proceed);
    TookParts(s, u, q, 1);
    HandsOver(u, t, q, i, n);
    var v := Step(u, t, Proceed);
    r := Step(v, t, Proceed);
    TookMore(u, v, r, q, 0, 0);
    TookMore(s, u, r, q, 1, 0);
    ThreeSteps(s, t);
    ThreeCalls(s, t);
  }

  lemma TookParts(s: State, r: State, q: Id, k: nat)
    requires TookFirst(s, r, q, k)
    ensures q in s.services && q in r.services && k <= |s.services[q].mq.msgs| && r.weights == s.weights
    ensures r.services[q].mq.msgs == s.services[q].mq.msgs[k..] && MqOf(r, q) == r.services[q].mq
  {
  }

  lemma ThreeSteps(s: State, t: nat)
    ensures Alone(s, t, 3) == Step(Step(Step(s, t, Proceed), t, Proceed), t, Proceed)
  {
    hide Step;
    assert Alone(s, t, 3) == Alone(Step(s, t, Proceed), t, 2);
  }

  lemma ThreeCalls(s: State, t: nat)
    requires Running(s, t) && !Top(s, t).Callback?
    requires var u := Step(s, t, Proceed);
             var v := Step(u, t, Proceed);
             Running(u, t) && !Top(u, t).Callback? && Running(v, t) && Top(v, t).Callback?
    ensures Calls(s, t, 3) == 1
  {
    hide Step;
    var u := Step(s, t, Proceed);
    var v := Step(u, t, Proceed);
    assert Calls(v, t, 1) == 1 + Calls(Step(v, t, Proceed), t, 0);
    assert Calls(u, t, 2) == 1;
  }

  lemma {:induction false} AloneAdds(s: State, t: nat, j: nat, k: nat)
    ensures Alone(Alone(s, t, j), t, k) == Alone(s, t, j + k)
    decreases j
  {
    hide Step;
    if j > 0 { AloneAdds(Step(s, t, Proceed), t, j - 1, k); }
  }

  // The rest of the round.
  lemma {:induction false} TakesRest(s: State, t: nat, q: Id, i: nat, n: nat) returns (k: nat)
    requires At(s, t, Next(q, i, n)) && q in s.services && 0 < i && n <= i + |s.services[q].mq.msgs|
    ensures At(Alone(s, t, k), t, Finish(q)) && TookFirst(s, Alone(s, t, k), q, if n > i then n - i else 0)
    ensures Calls(s, t, k) == if n > i then n - i else 0
    decreases n - i
  {
    hide Step, TookFirst, Alone, Share, Calls;
    if i < n {
      var u := OneByOne(s, t, q, i, n);
      LaterShare(Step(s, t, Proceed), t, q, i, n);
      TookParts(s, u, q, 1);
      var j := TakesRest(u, t, q, i + 1, n);
      AloneAdds(s, t, 3, j);
      CallsAdd(s, t, 3, j);
      k := 3 + j;
      TookMore(s, u, Alone(s, t, k), q, 1, n - i - 1);
    } else {
      k := 1;
      RoundOver(s, t, q, i, n);
    }
  }

  lemma LaterShare(s: State, t: nat, q: Id, i: nat, n: nat)
    requires i > 0
    ensures Share(s, t, q, i, n) == n
  {
  }

  lemma RoundOver(s: State, t: nat, q: Id, i: nat, n: nat)
    requires At(s, t, Next(q, i, n)) && q in s.services && i >= n
    ensures At(Alone(s, t, 1), t, Finish(q)) && TookFirst(s, Alone(s, t, 1), q, 0) && Calls(s, t, 1) == 0
  {
    FirstStep(s, t);
  }

  // A worker that enters a queue with messages, whose service is registered, takes as
  // many as its weight says, in order, and hands each to the service.
  lemma RoundTakes(s: State, t: nat, q: Id) returns (k: nat)
    requires At(s, t, Enter(q)) && Registered(s, q) && s.services[q].mq.msgs != []
    ensures At(Alone(s, t, k), t, Finish(q))
    ensures TookFirst(s, Alone(s, t, k), q, RoundShare(s, t, |s.services[q].mq.msgs|))
    ensures Calls(s, t, k) == RoundShare(s, t, |s.services[q].mq.msgs|)
  {
    hide Step, TookFirst, Alone, Shift, Calls;
    var m := |s.services[q].mq.msgs|;
    EntersQueue(s, t, q);
    var u := Step(s, t, Proceed);
    TookParts(s, u, q, 0);
    assert s.services[q].mq.msgs[0..] == s.services[q].mq.msgs;
    var v := OneByOne(u, t, q, 0, 1);
    TookMore(s, u, v, q, 0, 1);
    TookParts(s, v, q, 1);
    var n := Share(Step(u, t, Proceed), t, q, 0, 1);
    if t < |s.weights| && s.weights[t] >= 0 { ShiftLess(m - 1, s.weights[t]); }
    var j := TakesRest(v, t, q, 1, n);
    AloneAdds(u, t, 3, j);
    AloneAdds(s, t, 1, 3 + j);
    FirstStep(s, t);
    CallsAdd(u, t, 3, j);
    CallsAdd(s, t, 1, 3 + j);
    k := 4 + j;
    TookMore(s, v, Alone(s, t, k), q, 1, if n > 1 then n - 1 else 0);
  }

  lemma FirstStep(s: State, t: nat)
    ensures Alone(s, t, 1) == Step(s, t, Proceed) && Calls(s, t, 1) == B(Running(s, t) && Top(s, t).Callback?)
  {
    hide Step;
    var u := Step(s, t, Proceed);
    assert Alone(u, t, 0) == u && Calls(u, t, 0) == 0;
  }

  lemma EntersQueue(s: State, t: nat, q: Id)
    requires At(s, t, Enter(q)) && Registered(s, q)
    ensures At(Step(s, t, Proceed), t, Next(q, 0, 1)) && TookFirst(s, Step(s, t, Proceed), q, 0)
  {
  }
}
