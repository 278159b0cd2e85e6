// Services, their message queues and the threads that share them
// (skynet_mq.c, skynet_server.c, skynet_handle.c), as interleaved steps: one
// step for each region under a lock and each atomic operation. The invariant
// counts what the threads hold of each service.

module Scheduler {
  import opened MessageQueue

  type Id = nat

  // A handle with its context and its queue. `registered`: the handle storage
  // holds a reference. `live`: the context has not been freed.
  datatype Service = Service(ref: nat, registered: bool, live: bool, init: bool, mq: Mq)

  // Where a thread is. A thread is a stack of these: the last one runs, the
  // ones below it wait for it.
  datatype Frame =
    | Outside                               // code outside services, which may call in at any time
    | Fetch                                 // a worker without a queue
    | Enter(id: Id)                          // a worker starts to dispatch `q`
    | Next(id: Id, i: nat, n: nat)           // it is about to take message `i` of `n`
    | Counting(id: Id, i: nat, n: nat)       // the first message is taken, `n` is computed
    | Callback(id: Id, i: nat, n: nat)       // the service handles a message
    | Finish(id: Id)                         // all `n` messages are done
    | Swap(id: Id, nq: Id)                   // another queue is at hand, `q` goes back
    | MqRelease(id: Id)                      // `skynet_mq_release`
    | Drop(id: Id)                           // `_drop_queue`
    | Free(id: Id)                           // `_release`
    | Release(id: Id)                       // `skynet_context_release`
    | Delete(id: Id)                        // `delete_context`: the service cleans up
    | Mark(id: Id)                          // `delete_context`: the queue is marked
    | Send(id: Id, msg: Message)            // `skynet_context_push`: the handle is looked up
    | Post(id: Id, msg: Message)            // `skynet_context_push`: the message is pushed
    | Touch(id: Id)                         // a handle is looked up for something else
    | Retire(id: Id)                        // `skynet_handle_retire`
    | Launch(id: Id)                        // `skynet_context_new`: the context is registered
    | Init(id: Id)                          // the service starts up
    | InitFailed(id: Id)                    // `skynet_handle_retire`, then its queue is given up
    | Started(id: Id)                       // the launching thread gives up its own reference
    | Store(id: Id)                         // the context is marked as started up
    | Publish(id: Id, told: bool)           // its queue goes to the global queue
    | Note(id: Id)                          // the launch is logged, with the handle of the context

  datatype Taken = Taken(msg: Message, dropped: bool)

  // `pushed`, `taken` and `freed` record what has happened.
  datatype State = State(
    services: map<Id, Service>,
    global: seq<Id>,
    threads: seq<seq<Frame>>,
    weights: seq<int>,
    used: set<Id>,
    pushed: map<Id, seq<Message>>,
    taken: map<Id, seq<Taken>>,
    freed: seq<Id>)

  // What a thread may do next when there is a choice.
  datatype Choice = Proceed | GiveUp | Call(frame: Frame)

  predicate IsCall(f: Frame) { f.Send? || f.Touch? || f.Retire? || f.Launch? }

  predicate Registered(s: State, id: Id) { id in s.services && s.services[id].registered }

  // The last frame of thread `t` is replaced by `frames`.
  function Become(s: State, t: nat, frames: seq<Frame>): State
    requires t < |s.threads| && s.threads[t] != []
  {
    s.(threads := s.threads[t := s.threads[t][..|s.threads[t]| - 1] + frames])
  }

  function Update(s: State, id: Id, v: Service): State { s.(services := s.services[id := v]) }

  function UpdateMq(s: State, id: Id, q: Mq): State
    requires id in s.services
  {
    Update(s, id, s.services[id].(mq := q))
  }

  function Enqueue(s: State, q: Id): State { s.(global := s.global + [q]) }

  function Log<T>(m: map<Id, seq<T>>, id: Id): seq<T> { if id in m then m[id] else [] }

  // A reference is taken: `skynet_handle_grab` on a registered handle.
  function Grab(s: State, id: Id): State
    requires id in s.services
  {
    Update(s, id, s.services[id].(ref := s.services[id].ref + 1))
  }

  // Code of a service, or outside of services, calls in or goes on.
  function UserCode(s: State, t: nat, c: Choice, after: seq<Frame>): State
    requires t < |s.threads| && s.threads[t] != []
  {
    match c
    case Call(f) => if IsCall(f) then Become(s, t, [s.threads[t][|s.threads[t]| - 1], f]) else s
    case _ => Become(s, t, after)
  }

  function Shift(n: nat, weight: nat): nat
    decreases weight
  {
    if weight == 0 then n else Shift(n / 2, weight - 1)
  }

  // `skynet_mq_pop` on the queue of `q`.
  function TakeMessage(s: State, q: Id, dropped: bool): State
    requires q in s.services
  {
    var mq := s.services[q].mq;
    var s1 := UpdateMq(s, q, Popped(mq));
    if mq.msgs == [] then s1
    else s1.(taken := s.taken[q := Log(s.taken, q) + [Taken(mq.msgs[0], dropped)]])
  }

  // One step of thread `t`. Frames that refer to a service which is not there
  // do nothing; `Sound` says that this never happens.
  function Step(s: State, t: nat, c: Choice): State {
    if t >= |s.threads| || s.threads[t] == [] then s
    else
      var f := s.threads[t][|s.threads[t]| - 1];
      match f
      case Outside => if c.Call? then UserCode(s, t, c, []) else s
      case Fetch =>
        if s.global == [] then s
        else Become(s.(global := s.global[1..]), t, [Enter(s.global[0])])
      case Enter(q) => StepEnter(s, t, q)
      case Next(q, i, n) => if q in s.services then StepNext(s, t, q, i, n) else s
      case Counting(q, i, n) => if q in s.services then StepCounting(s, t, q, i, n) else s
      case Callback(q, i, n) => UserCode(s, t, c, [Next(q, i + 1, n)])
      case Finish(q) =>
        if s.global == [] then Become(s, t, [Enter(q), Release(q)])
        else Become(s.(global := s.global[1..]), t, [Swap(q, s.global[0])])
      case Swap(q, nq) => Become(Enqueue(s, q), t, [Enter(nq), Release(q)])
      case MqRelease(q) =>
        if q !in s.services then s
        else if s.services[q].mq.release then Become(s, t, [Drop(q)])
        else Become(Enqueue(s, q), t, [])
      case Drop(q) => if q in s.services then StepDrop(s, t, q) else s
      case Free(q) =>
        if q in s.services then
          Become(s.(services := s.services - {q}, freed := s.freed + [q]), t, [])
        else s
      case Release(id) => if id in s.services then StepRelease(s, t, id) else s
      case Delete(id) => UserCode(s, t, c, [Mark(id)])
      case Mark(id) => if id in s.services then StepMark(s, t, id) else s
      case Send(id, msg) =>
        if Registered(s, id) then Become(Grab(s, id), t, [Post(id, msg)]) else Become(s, t, [])
      case Post(id, msg) => if id in s.services then StepPost(s, t, id, msg) else s
      case Touch(id) =>
        if Registered(s, id) then Become(Grab(s, id), t, [Release(id)]) else Become(s, t, [])
      case Retire(id) =>
        if Registered(s, id) then
          Become(Update(s, id, s.services[id].(registered := false)), t, [Release(id)])
        else Become(s, t, [])
      case Launch(id) =>
        if id in s.used || id == 0 then Become(s, t, [])
        else
          var made := Service(2, true, true, false, Mq([], true, false));
          Become(Update(s, id, made).(used := s.used + {id}), t, [Init(id)])
      case Init(id) =>
        UserCode(s, t, c, if c.GiveUp? then [InitFailed(id), Release(id)] else [Started(id)])
      case InitFailed(id) =>
        if Registered(s, id) then
          Become(Update(s, id, s.services[id].(registered := false)), t, [MqRelease(id), Release(id)])
        else Become(s, t, [MqRelease(id)])
      case Started(id) => if id in s.services then StepStarted(s, t, id) else s
      case Store(id) =>
        if id in s.services then
          Become(Update(s, id, s.services[id].(init := true)), t, [Publish(id, true)])
        else s
      case Publish(id, told) => Become(Enqueue(s, id), t, if told then [Note(id)] else [])
      case Note(id) => Become(s, t, [])
  }

  function StepEnter(s: State, t: nat, q: Id): State
    requires t < |s.threads| && s.threads[t] != []
  {
    if Registered(s, q) then Become(Grab(s, q), t, [Next(q, 0, 1)])
    else Become(s, t, [Fetch, MqRelease(q)])
  }

  function StepNext(s: State, t: nat, q: Id, i: nat, n: nat): State
    requires t < |s.threads| && s.threads[t] != [] && q in s.services
  {
    if i >= n then Become(s, t, [Finish(q)])
    else if s.services[q].mq.msgs == [] then Become(TakeMessage(s, q, false), t, [Fetch, Release(q)])
    else Become(TakeMessage(s, q, false), t, [Counting(q, i, n)])
  }

  // A worker with a weight takes a share of what is there.
  function StepCounting(s: State, t: nat, q: Id, i: nat, n: nat): State
    requires t < |s.threads| && s.threads[t] != [] && q in s.services
  {
    if i == 0 && t < |s.weights| && s.weights[t] >= 0
    then Become(s, t, [Callback(q, i, Shift(|s.services[q].mq.msgs|, s.weights[t]))])
    else Become(s, t, [Callback(q, i, n)])
  }

  // A dropped message is answered with an error.
  function StepDrop(s: State, t: nat, q: Id): State
    requires t < |s.threads| && s.threads[t] != [] && q in s.services
  {
    var msgs := s.services[q].mq.msgs;
    if msgs == [] then Become(TakeMessage(s, q, true), t, [Free(q)])
    else Become(TakeMessage(s, q, true), t, [Drop(q), Send(msgs[0].source, Message(q, 0, 0))])
  }

  function StepRelease(s: State, t: nat, id: Id): State
    requires t < |s.threads| && s.threads[t] != [] && id in s.services
  {
    var v := s.services[id];
    if v.ref == 0 then s
    else Become(Update(s, id, v.(ref := v.ref - 1)), t, if v.ref == 1 then [Delete(id)] else [])
  }

  function StepMark(s: State, t: nat, id: Id): State
    requires t < |s.threads| && s.threads[t] != [] && id in s.services
  {
    var v := s.services[id];
    var s1 := Update(s, id, v.(live := false, mq := Marked(v.mq)));
    Become(if v.mq.inGlobal then s1 else Enqueue(s1, id), t, [])
  }

  function StepPost(s: State, t: nat, id: Id, msg: Message): State
    requires t < |s.threads| && s.threads[t] != [] && id in s.services
  {
    var mq := s.services[id].mq;
    var s1 := UpdateMq(s, id, Pushed(mq, msg)).(pushed := s.pushed[id := Log(s.pushed, id) + [msg]]);
    Become(if mq.inGlobal then s1 else Enqueue(s1, id), t, [Release(id)])
  }

  // The context is only marked, and logged, if others still refer to it when the
  // launching thread has given up its reference.
  function StepStarted(s: State, t: nat, id: Id): State
    requires t < |s.threads| && s.threads[t] != [] && id in s.services
  {
    var v := s.services[id];
    if v.ref == 0 then s
    else Become(Update(s, id, v.(ref := v.ref - 1)), t, if v.ref == 1 then [Publish(id, false), Delete(id)] else [Store(id)])
  }

  // -------------------------------------------------------------------------
  // What the frames of a thread hold
  // -------------------------------------------------------------------------

  // Of a service: counted references to the context, duties to free the
  // context, the queue itself (taken out of the global queue, or not yet put
  // there), rights to run the service, and duties to free the queue, the last
  // ones with the queue empty.
  datatype Kind = Refs | Deleters | Holders | Builders | Publishers | Dispatchers | Droppers | Freers

  function B(b: bool): nat { if b then 1 else 0 }

  predicate Dispatches(f: Frame) { f.Next? || f.Counting? || f.Callback? || f.Finish? || f.Swap? }

  predicate HoldsRef(f: Frame) { Dispatches(f) || f.Release? || f.Post? || f.Init? || f.Started? }

  predicate Builds(f: Frame) { f.Init? || f.InitFailed? || f.Started? || f.Store? || f.Publish? }

  predicate HoldsQueue(f: Frame) { Dispatches(f) || f.Enter? || f.MqRelease? || f.Drop? || f.Free? }

  // How much of each kind a frame holds of the service `id`.
  function Holds(k: Kind, f: Frame, id: Id): nat {
    match k
    case Refs => B(HoldsRef(f) && f.id == id)
    case Deleters => B((f.Delete? || f.Mark?) && f.id == id)
    case Holders => B(HoldsQueue(f) && f.id == id) + B(f.Swap? && f.nq == id)
    case Builders => B(Builds(f) && f.id == id)
    case Publishers => B(f.Publish? && f.id == id)
    case Dispatchers => B(Dispatches(f) && f.id == id)
    case Droppers => B((f.Drop? || f.Free?) && f.id == id)
    case Freers => B(f.Free? && f.id == id)
  }

  function StackHolds(k: Kind, stack: seq<Frame>, id: Id): nat {
    if stack == [] then 0 else StackHolds(k, stack[..|stack| - 1], id) + Holds(k, stack[|stack| - 1], id)
  }

  function AllHold(k: Kind, threads: seq<seq<Frame>>, id: Id): nat {
    if threads == [] then 0
    else AllHold(k, threads[..|threads| - 1], id) + StackHolds(k, threads[|threads| - 1], id)
  }

  lemma {:induction false} StackHoldsConcat(k: Kind, a: seq<Frame>, b: seq<Frame>, id: Id)
    ensures StackHolds(k, a + b, id) == StackHolds(k, a, id) + StackHolds(k, b, id)
    decreases b
  {
    hide Holds;
    if b == [] {
      assert a + b == a;
    } else {
      var n := |b| - 1;
      StackHoldsConcat(k, a, b[..n], id);
      assert (a + b)[..|a + b| - 1] == a + b[..n];
    }
  }

  lemma {:induction false} AllHoldUpdate(k: Kind, threads: seq<seq<Frame>>, t: nat, stack: seq<Frame>, id: Id)
    requires t < |threads|
    ensures AllHold(k, threads[t := stack], id) + StackHolds(k, threads[t], id)
         == AllHold(k, threads, id) + StackHolds(k, stack, id)
    ensures StackHolds(k, threads[t], id) <= AllHold(k, threads, id)
    decreases |threads|
  {
    hide StackHolds;
    var n := |threads| - 1;
    if t == n {
      assert threads[t := stack][..n] == threads[..n];
    } else {
      AllHoldUpdate(k, threads[..n], t, stack, id);
      assert threads[t := stack][..n] == threads[..n][t := stack];
    }
  }

  // -------------------------------------------------------------------------
  // The invariant
  // -------------------------------------------------------------------------

  function Msgs(taken: seq<Taken>): (r: seq<Message>)
    ensures |r| == |taken|
  {
    if taken == [] then [] else Msgs(taken[..|taken| - 1]) + [taken[|taken| - 1].msg]
  }

  function Total(s: State, k: Kind, id: Id): nat { AllHold(k, s.threads, id) }

  function Occurs(list: seq<Id>, id: Id): nat { multiset(list)[id] }

  lemma OccursAppended(list: seq<Id>, q: Id, id: Id)
    ensures Occurs(list + [q], id) == Occurs(list, id) + B(q == id)
  {
  }

  lemma OccursFirst(list: seq<Id>, q: Id, id: Id)
    ensures Occurs([q] + list, id) == Occurs(list, id) + B(q == id)
  {
  }

  function Queued(s: State, id: Id): nat { Occurs(s.global, id) }

  // The references that are counted are those that exist; who brings the count
  // to zero frees the context, once.
  ghost predicate RefsOk(s: State, v: Service, id: Id) {
    if v.live then
      && v.ref == B(v.registered) + Total(s, Refs, id)
      && Total(s, Deleters, id) == B(v.ref == 0)
    else
      !v.registered && v.ref == 0 && Total(s, Refs, id) == 0 && Total(s, Deleters, id) == 0
  }

  // A queue is in one place: in the global queue or with one thread if it is
  // marked as such or has been given up, and nowhere if it is idle. Idle queues
  // are empty.
  ghost predicate PlaceOk(s: State, v: Service, id: Id) {
    && Total(s, Holders, id) + Total(s, Builders, id) + Queued(s, id) == B(v.mq.inGlobal || v.mq.release)
    && (!v.mq.inGlobal ==> v.mq.msgs == [])
    && v.mq.release == !v.live
  }

  // Messages are only dispatched to services that have started up, and queues
  // only dropped when nobody can refer to them.
  ghost predicate RightsOk(s: State, v: Service, id: Id) {
    && (v.registered && !v.init ==> Total(s, Builders, id) == 1)
    && (v.registered && Total(s, Publishers, id) > 0 ==> v.init)
    && (Total(s, Dispatchers, id) > 0 ==> v.init)
    && (Total(s, Droppers, id) > 0 ==> v.mq.release)
    && (Total(s, Freers, id) > 0 ==> v.mq.msgs == [])
  }

  // What was pushed has been taken, in order, or is still there.
  ghost predicate LogOk(s: State, id: Id) {
    Log(s.pushed, id) == Msgs(Log(s.taken, id)) + (if id in s.services then s.services[id].mq.msgs else [])
  }

  ghost predicate NothingHeld(s: State, id: Id) {
    && Total(s, Refs, id) == 0 && Total(s, Deleters, id) == 0 && Total(s, Holders, id) == 0
    && Total(s, Builders, id) == 0 && Total(s, Publishers, id) == 0 && Total(s, Dispatchers, id) == 0
    && Total(s, Droppers, id) == 0 && Total(s, Freers, id) == 0 && Queued(s, id) == 0
  }

  ghost predicate IdOk(s: State, id: Id) {
    && LogOk(s, id)
    && Occurs(s.freed, id) == B(id in s.used && id !in s.services)
    && if id in s.services then
         var v := s.services[id];
         id in s.used && RefsOk(s, v, id) && PlaceOk(s, v, id) && RightsOk(s, v, id)
       else
         NothingHeld(s, id) && (id !in s.used ==> Log(s.pushed, id) == [])
  }

  ghost predicate Inv(s: State) { forall id: Id :: IdOk(s, id) }

  // -------------------------------------------------------------------------
  // Every step keeps the invariant
  // -------------------------------------------------------------------------

  predicate At(s: State, t: nat, f: Frame) {
    t < |s.threads| && s.threads[t] != [] && s.threads[t][|s.threads[t]| - 1] == f
  }

  // A step that replaces `f` by (up to three) other frames, for one kind of
  // holding. `Outside` holds nothing.
  ghost predicate Gains(s: State, r: State, k: Kind, id: Id, f: Frame, a: Frame, b: Frame, c: Frame) {
    && Total(r, k, id) + Holds(k, f, id) == Total(s, k, id) + Holds(k, a, id) + Holds(k, b, id) + Holds(k, c, id)
    && Holds(k, f, id) <= Total(s, k, id)
  }

  ghost predicate AllGains(s: State, r: State, id: Id, f: Frame, a: Frame, b: Frame, c: Frame) {
    && Gains(s, r, Refs, id, f, a, b, c) && Gains(s, r, Deleters, id, f, a, b, c)
    && Gains(s, r, Holders, id, f, a, b, c) && Gains(s, r, Builders, id, f, a, b, c)
    && Gains(s, r, Publishers, id, f, a, b, c) && Gains(s, r, Dispatchers, id, f, a, b, c)
    && Gains(s, r, Droppers, id, f, a, b, c) && Gains(s, r, Freers, id, f, a, b, c)
  }

  function Few(n: nat, a: Frame, b: Frame, c: Frame): seq<Frame> {
    if n == 0 then [] else if n == 1 then [a] else if n == 2 then [a, b] else [a, b, c]
  }

  predicate Fill(n: nat, a: Frame, b: Frame, c: Frame) {
    (n < 1 ==> a.Outside?) && (n < 2 ==> b.Outside?) && (n < 3 ==> c.Outside?)
  }

  lemma FewHold(k: Kind, n: nat, a: Frame, b: Frame, c: Frame, id: Id)
    requires Fill(n, a, b, c)
    ensures StackHolds(k, Few(n, a, b, c), id) == Holds(k, a, id) + Holds(k, b, id) + Holds(k, c, id)
  {
    hide Holds;
    OutsideHoldsNothing(k, id);
    assert [a][..0] == [] && [a, b][..1] == [a] && [a, b, c][..2] == [a, b];
    assert StackHolds(k, [a], id) == Holds(k, a, id);
    assert StackHolds(k, [a, b], id) == Holds(k, a, id) + Holds(k, b, id);
    assert StackHolds(k, [a, b, c], id) == Holds(k, a, id) + Holds(k, b, id) + Holds(k, c, id);
  }

  lemma OutsideHoldsNothing(k: Kind, id: Id)
    ensures Holds(k, Outside, id) == 0
  {
  }

  lemma StepGains(s: State, t: nat, f: Frame, n: nat, a: Frame, b: Frame, c: Frame, r: State, k: Kind, id: Id)
    requires At(s, t, f) && Fill(n, a, b, c)
    requires r.threads == Become(s, t, Few(n, a, b, c)).threads
    ensures Gains(s, r, k, id, f, a, b, c)
  {
    hide AllHold, Holds, Few;
    var stack := s.threads[t];
    var below := stack[..|stack| - 1];
    AllHoldUpdate(k, s.threads, t, below + Few(n, a, b, c), id);
    StackHoldsConcat(k, below, Few(n, a, b, c), id);
    FewHold(k, n, a, b, c, id);
  }

  lemma StepGainsAll(s: State, t: nat, f: Frame, n: nat, a: Frame, b: Frame, c: Frame, r: State, id: Id)
    requires At(s, t, f) && Fill(n, a, b, c)
    requires r.threads == Become(s, t, Few(n, a, b, c)).threads
    ensures AllGains(s, r, id, f, a, b, c)
  {
    hide Gains, Become, Few, At, Fill;
    StepGains(s, t, f, n, a, b, c, r, Refs, id);
    StepGains(s, t, f, n, a, b, c, r, Deleters, id);
    StepGains(s, t, f, n, a, b, c, r, Holders, id);
    StepGains(s, t, f, n, a, b, c, r, Builders, id);
    StepGains(s, t, f, n, a, b, c, r, Publishers, id);
    StepGains(s, t, f, n, a, b, c, r, Dispatchers, id);
    StepGains(s, t, f, n, a, b, c, r, Droppers, id);
    StepGains(s, t, f, n, a, b, c, r, Freers, id);
  }

  // Some holdings come with others.
  lemma {:induction false} StackOrder(stack: seq<Frame>, id: Id)
    ensures StackHolds(Dispatchers, stack, id) <= StackHolds(Holders, stack, id)
    ensures StackHolds(Dispatchers, stack, id) <= StackHolds(Refs, stack, id)
    ensures StackHolds(Droppers, stack, id) <= StackHolds(Holders, stack, id)
    ensures StackHolds(Freers, stack, id) <= StackHolds(Droppers, stack, id)
    ensures StackHolds(Publishers, stack, id) <= StackHolds(Builders, stack, id)
  {
    if stack != [] { StackOrder(stack[..|stack| - 1], id); }
  }

  lemma {:induction false} AllOrder(threads: seq<seq<Frame>>, id: Id)
    ensures AllHold(Dispatchers, threads, id) <= AllHold(Holders, threads, id)
    ensures AllHold(Dispatchers, threads, id) <= AllHold(Refs, threads, id)
    ensures AllHold(Droppers, threads, id) <= AllHold(Holders, threads, id)
    ensures AllHold(Freers, threads, id) <= AllHold(Droppers, threads, id)
    ensures AllHold(Publishers, threads, id) <= AllHold(Builders, threads, id)
  {
    if threads != [] {
      AllOrder(threads[..|threads| - 1], id);
      StackOrder(threads[|threads| - 1], id);
    }
  }

  lemma Order(s: State, id: Id)
    ensures Total(s, Dispatchers, id) <= Total(s, Holders, id)
    ensures Total(s, Dispatchers, id) <= Total(s, Refs, id)
    ensures Total(s, Droppers, id) <= Total(s, Holders, id)
    ensures Total(s, Freers, id) <= Total(s, Droppers, id)
    ensures Total(s, Publishers, id) <= Total(s, Builders, id)
  {
    AllOrder(s.threads, id);
  }

  // The steps, one by one: `r` is `s` after the step, seen by service `id`.

  lemma FetchKeeps(s: State, r: State, q: Id, id: Id)
    requires IdOk(s, id) && AllGains(s, r, id, Fetch, Enter(q), Outside, Outside)
    requires s.global == [q] + r.global && r == s.(global := r.global, threads := r.threads)
    ensures IdOk(r, id)
  {
    hide Occurs, Total, Msgs, Log;
    OccursFirst(r.global, q, id);
  }

  lemma GrabbedKeeps(s: State, r: State, q: Id, id: Id)
    requires IdOk(s, id) && AllGains(s, r, id, Enter(q), Next(q, 0, 1), Outside, Outside)
    requires Registered(s, q) && r == Grab(s, q).(threads := r.threads)
    ensures IdOk(r, id)
  {
    hide Occurs, Total, Msgs, Log;
  }

  lemma GoneKeeps(s: State, r: State, q: Id, id: Id)
    requires IdOk(s, id) && AllGains(s, r, id, Enter(q), Fetch, MqRelease(q), Outside)
    requires r == s.(threads := r.threads)
    ensures IdOk(r, id)
  {
    hide Occurs, Total, Msgs, Log;
  }

  // The worker goes on with the same queue.
  lemma GoOnKeeps(s: State, r: State, f: Frame, g: Frame, q: Id, id: Id)
    requires IdOk(s, id) && AllGains(s, r, id, f, g, Outside, Outside)
    requires Dispatches(f) && !f.Swap? && Dispatches(g) && !g.Swap? && f.id == q == g.id
    requires r == s.(threads := r.threads)
    ensures IdOk(r, id)
  {
    hide Occurs, Total, Msgs, Log;
  }

  lemma IdleKeeps(s: State, r: State, f: Frame, q: Id, id: Id)
    requires IdOk(s, id) && AllGains(s, r, id, f, Fetch, Release(q), Outside) && f.Next? && f.id == q
    requires q in s.services && s.services[q].mq.msgs == []
    requires r == TakeMessage(s, q, false).(threads := r.threads)
    ensures IdOk(r, id)
  {
    hide Occurs, Total, Msgs, Log;
  }

  lemma MsgsAppend(taken: seq<Taken>, x: Taken)
    ensures Msgs(taken + [x]) == Msgs(taken) + [x.msg]
  {
    assert (taken + [x])[..|taken|] == taken;
  }

  // Taking a message keeps the log.
  lemma TakeLogs(s: State, q: Id, dropped: bool, id: Id)
    requires q in s.services && LogOk(s, id)
    ensures LogOk(TakeMessage(s, q, dropped), id)
  {
    var msgs := s.services[q].mq.msgs;
    if msgs != [] && id == q {
      MsgsAppend(Log(s.taken, q), Taken(msgs[0], dropped));
      assert msgs == [msgs[0]] + msgs[1..];
    }
  }

  lemma TakenKeeps(s: State, r: State, f: Frame, g: Frame, q: Id, id: Id)
    requires IdOk(s, id) && AllGains(s, r, id, f, g, Outside, Outside)
    requires f.Next? && g.Counting? && f.id == q == g.id && q in s.services && s.services[q].mq.msgs != []
    requires r == TakeMessage(s, q, false).(threads := r.threads)
    ensures IdOk(r, id)
  {
    hide Occurs, Total, Msgs, Log, LogOk;
    TakeLogs(s, q, false, id);
    assert LogOk(r, id) by { SameLog(TakeMessage(s, q, false), r, id); }
  }

  lemma SameLog(s: State, r: State, id: Id)
    requires LogOk(s, id) && r.pushed == s.pushed && r.taken == s.taken
    requires (id in r.services) == (id in s.services)
    requires id in s.services ==> r.services[id].mq.msgs == s.services[id].mq.msgs
    ensures LogOk(r, id)
  {
  }

  lemma KeptKeeps(s: State, r: State, q: Id, id: Id)
    requires IdOk(s, id) && AllGains(s, r, id, Finish(q), Enter(q), Release(q), Outside)
    requires r == s.(threads := r.threads)
    ensures IdOk(r, id)
  {
    hide Occurs, Total, Msgs, Log;
  }

  lemma SwapFoundKeeps(s: State, r: State, q: Id, nq: Id, id: Id)
    requires IdOk(s, id) && AllGains(s, r, id, Finish(q), Swap(q, nq), Outside, Outside)
    requires s.global == [nq] + r.global && r == s.(global := r.global, threads := r.threads)
    ensures IdOk(r, id)
  {
    hide Occurs, Total, Msgs, Log;
    OccursFirst(r.global, nq, id);
  }

  lemma SwapKeeps(s: State, r: State, q: Id, nq: Id, id: Id)
    requires IdOk(s, id) && AllGains(s, r, id, Swap(q, nq), Enter(nq), Release(q), Outside)
    requires r == Enqueue(s, q).(threads := r.threads)
    ensures IdOk(r, id)
  {
    hide Occurs, Total, Msgs, Log;
    OccursAppended(s.global, q, id);
  }

  lemma DropStartsKeeps(s: State, r: State, q: Id, id: Id)
    requires IdOk(s, id) && AllGains(s, r, id, MqRelease(q), Drop(q), Outside, Outside)
    requires q in s.services && s.services[q].mq.release && r == s.(threads := r.threads)
    ensures IdOk(r, id)
  {
    hide Occurs, Total, Msgs, Log;
  }

  lemma PutBackKeeps(s: State, r: State, q: Id, id: Id)
    requires IdOk(s, id) && AllGains(s, r, id, MqRelease(q), Outside, Outside, Outside)
    requires r == Enqueue(s, q).(threads := r.threads)
    ensures IdOk(r, id)
  {
    hide Occurs, Total, Msgs, Log;
    OccursAppended(s.global, q, id);
  }

  ghost predicate SameTotals(s: State, r: State, id: Id) {
    && Total(r, Refs, id) == Total(s, Refs, id) && Total(r, Deleters, id) == Total(s, Deleters, id)
    && Total(r, Holders, id) == Total(s, Holders, id) && Total(r, Builders, id) == Total(s, Builders, id)
    && Total(r, Dispatchers, id) == Total(s, Dispatchers, id) && Total(r, Droppers, id) == Total(s, Droppers, id)
    && Total(r, Freers, id) == Total(s, Freers, id) && Total(r, Publishers, id) == Total(s, Publishers, id)
  }

  lemma CallsHoldNothing(g: Frame, k: Kind, id: Id)
    requires IsCall(g) || g.Outside?
    ensures Holds(k, g, id) == 0
  {
  }

  // Calling something holds nothing more.
  lemma CallGains(s: State, r: State, f: Frame, g: Frame, id: Id)
    requires AllGains(s, r, id, f, f, g, Outside) && IsCall(g)
    ensures SameTotals(s, r, id)
  {
    hide Total, Holds;
    forall k: Kind ensures Holds(k, g, id) == 0 && Holds(k, Outside, id) == 0 {
      CallsHoldNothing(g, k, id);
      CallsHoldNothing(Outside, k, id);
    }
  }

  lemma DroppedKeeps(s: State, r: State, q: Id, g: Frame, id: Id)
    requires IdOk(s, id) && AllGains(s, r, id, Drop(q), Drop(q), g, Outside) && g.Send?
    requires q in s.services && s.services[q].mq.msgs != []
    requires r == TakeMessage(s, q, true).(threads := r.threads)
    ensures IdOk(r, id)
  {
    hide AllGains, Occurs, Total, Msgs, Log, LogOk;
    TakeLogs(s, q, true, id);
    CallGains(s, r, Drop(q), g, id);
    assert LogOk(r, id) by { SameLog(TakeMessage(s, q, true), r, id); }
  }

  lemma DropEndsKeeps(s: State, r: State, q: Id, id: Id)
    requires IdOk(s, id) && AllGains(s, r, id, Drop(q), Free(q), Outside, Outside)
    requires q in s.services && s.services[q].mq.msgs == []
    requires r == TakeMessage(s, q, true).(threads := r.threads)
    ensures IdOk(r, id)
  {
    hide Occurs, Total, Msgs, Log;
  }

  lemma FreeGains(s: State, r: State, q: Id, id: Id)
    requires AllGains(s, r, id, Free(q), Outside, Outside, Outside)
    ensures Total(s, Refs, id) == Total(r, Refs, id)
    ensures Total(s, Deleters, id) == Total(r, Deleters, id)
    ensures Total(s, Holders, id) == Total(r, Holders, id) + B(q == id)
    ensures Total(s, Builders, id) == Total(r, Builders, id)
    ensures Total(s, Dispatchers, id) == Total(r, Dispatchers, id)
    ensures Total(s, Droppers, id) == Total(r, Droppers, id) + B(q == id)
    ensures Total(s, Freers, id) == Total(r, Freers, id) + B(q == id)
    ensures Total(s, Publishers, id) == Total(r, Publishers, id)
  {
    hide Total;
  }

  lemma FreeKeeps(s: State, r: State, q: Id, id: Id)
    requires IdOk(s, id) && AllGains(s, r, id, Free(q), Outside, Outside, Outside)
    requires q in s.services
    requires r == s.(services := s.services - {q}, freed := s.freed + [q], threads := r.threads)
    ensures IdOk(r, id)
  {
    hide AllGains, Occurs, Total, Msgs, Log;
    Order(r, id);
    FreeGains(s, r, q, id);
    OccursAppended(s.freed, q, id);
  }

  lemma ReleaseKeeps(s: State, r: State, v: Service, g: Frame, q: Id, id: Id)
    requires IdOk(s, id) && AllGains(s, r, id, Release(q), g, Outside, Outside)
    requires q in s.services && v == s.services[q] && v.ref > 0
    requires g == (if v.ref == 1 then Delete(q) else Outside)
    requires r == Update(s, q, v.(ref := v.ref - 1)).(threads := r.threads)
    ensures IdOk(r, id)
  {
    hide Occurs, Total, Msgs, Log;
  }

  lemma DeletedKeeps(s: State, r: State, q: Id, id: Id)
    requires IdOk(s, id) && AllGains(s, r, id, Delete(q), Mark(q), Outside, Outside)
    requires r == s.(threads := r.threads)
    ensures IdOk(r, id)
  {
    hide Occurs, Total, Msgs, Log;
  }

  lemma MarkGains(s: State, r: State, q: Id, id: Id)
    requires AllGains(s, r, id, Mark(q), Outside, Outside, Outside)
    ensures Total(s, Refs, id) == Total(r, Refs, id)
    ensures Total(s, Deleters, id) == Total(r, Deleters, id) + B(q == id)
    ensures Total(s, Holders, id) == Total(r, Holders, id)
    ensures Total(s, Builders, id) == Total(r, Builders, id)
    ensures Total(s, Dispatchers, id) == Total(r, Dispatchers, id)
    ensures Total(s, Droppers, id) == Total(r, Droppers, id)
    ensures Total(s, Freers, id) == Total(r, Freers, id)
    ensures Total(s, Publishers, id) == Total(r, Publishers, id)
  {
    hide Total;
  }

  lemma MarkKeeps(s: State, r: State, v: Service, q: Id, id: Id)
    requires IdOk(s, id) && AllGains(s, r, id, Mark(q), Outside, Outside, Outside)
    requires q in s.services && v == s.services[q]
    requires var s1 := Update(s, q, v.(live := false, mq := Marked(v.mq)));
             r == (if v.mq.inGlobal then s1 else Enqueue(s1, q)).(threads := r.threads)
    ensures IdOk(r, id)
  {
    hide AllGains, Occurs, Total, Msgs, Log;
    MarkGains(s, r, q, id);
    OccursAppended(s.global, q, id);
  }

  // A reference for a message, or for something else.
  lemma ReferKeeps(s: State, r: State, f: Frame, g: Frame, q: Id, id: Id)
    requires IdOk(s, id) && AllGains(s, r, id, f, g, Outside, Outside)
    requires (f.Send? || f.Touch?) && (g.Post? || g.Release?) && g.id == q
    requires Registered(s, q) && r == Grab(s, q).(threads := r.threads)
    ensures IdOk(r, id)
  {
    hide AllGains, Occurs, Total, Msgs, Log;
    ReferGains(s, r, f, g, id);
  }

  lemma ReferGains(s: State, r: State, f: Frame, g: Frame, id: Id)
    requires AllGains(s, r, id, f, g, Outside, Outside)
    requires (f.Send? || f.Touch?) && (g.Post? || g.Release?)
    ensures Total(r, Refs, id) == Total(s, Refs, id) + B(g.id == id)
    ensures Total(r, Deleters, id) == Total(s, Deleters, id)
    ensures Total(r, Holders, id) == Total(s, Holders, id) && Total(r, Builders, id) == Total(s, Builders, id)
    ensures Total(r, Dispatchers, id) == Total(s, Dispatchers, id) && Total(r, Droppers, id) == Total(s, Droppers, id)
    ensures Total(r, Freers, id) == Total(s, Freers, id) && Total(r, Publishers, id) == Total(s, Publishers, id)
  {
    hide Total;
  }

  // A frame that holds nothing ends, or calls something.
  lemma NothingKeeps(s: State, r: State, f: Frame, id: Id)
    requires IdOk(s, id) && AllGains(s, r, id, f, Outside, Outside, Outside) && (IsCall(f) || f.Note?)
    requires r == s.(threads := r.threads)
    ensures IdOk(r, id)
  {
    hide Occurs, Total, Msgs, Log;
  }

  lemma CallKeeps(s: State, r: State, f: Frame, g: Frame, id: Id)
    requires IdOk(s, id) && AllGains(s, r, id, f, f, g, Outside) && IsCall(g)
    requires r == s.(threads := r.threads)
    ensures IdOk(r, id)
  {
    hide AllGains, Occurs, Total, Msgs, Log;
    CallGains(s, r, f, g, id);
  }

  lemma PostGains(s: State, r: State, q: Id, msg: Message, id: Id)
    requires AllGains(s, r, id, Post(q, msg), Release(q), Outside, Outside)
    ensures SameTotals(s, r, id)
    ensures q == id ==> Total(s, Refs, id) > 0
  {
    hide Total;
  }

  lemma PostLogs(s: State, q: Id, msg: Message, id: Id)
    requires q in s.services && LogOk(s, id)
    ensures LogOk(UpdateMq(s, q, Pushed(s.services[q].mq, msg)).(pushed := s.pushed[q := Log(s.pushed, q) + [msg]]), id)
  {
    hide Msgs;
  }

  lemma LogOther<T>(m: map<Id, seq<T>>, q: Id, x: seq<T>, id: Id)
    ensures id != q ==> Log(m[q := x], id) == Log(m, id)
  {
  }

  lemma PostKeeps(s: State, r: State, q: Id, msg: Message, id: Id)
    requires IdOk(s, id) && AllGains(s, r, id, Post(q, msg), Release(q), Outside, Outside)
    requires q in s.services
    requires var mq := s.services[q].mq;
             var s1 := UpdateMq(s, q, Pushed(mq, msg)).(pushed := s.pushed[q := Log(s.pushed, q) + [msg]]);
             r == (if mq.inGlobal then s1 else Enqueue(s1, q)).(threads := r.threads)
    ensures IdOk(r, id)
  {
    hide AllGains, Occurs, Total, Msgs, Log, LogOk;
    LogOther(s.pushed, q, Log(s.pushed, q) + [msg], id);
    Order(s, id);
    PostLogs(s, q, msg, id);
    var mq := s.services[q].mq;
    var s1 := UpdateMq(s, q, Pushed(mq, msg)).(pushed := s.pushed[q := Log(s.pushed, q) + [msg]]);
    SameLog(s1, r, id);
    PostGains(s, r, q, msg, id);
    OccursAppended(s.global, q, id);
  }

  lemma RetireKeeps(s: State, r: State, q: Id, id: Id)
    requires IdOk(s, id) && AllGains(s, r, id, Retire(q), Release(q), Outside, Outside)
    requires Registered(s, q)
    requires r == Update(s, q, s.services[q].(registered := false)).(threads := r.threads)
    ensures IdOk(r, id)
  {
    hide Occurs, Total, Msgs, Log;
  }

  lemma LaunchKeeps(s: State, r: State, q: Id, id: Id)
    requires IdOk(s, id) && AllGains(s, r, id, Launch(q), Init(q), Outside, Outside)
    requires q !in s.used
    requires r == Update(s, q, Service(2, true, true, false, Mq([], true, false))).(used := s.used + {q}, threads := r.threads)
    ensures IdOk(r, id)
  {
    hide Occurs, Total, Msgs, Log;
  }

  lemma InitDoneKeeps(s: State, r: State, q: Id, id: Id)
    requires IdOk(s, id) && AllGains(s, r, id, Init(q), Started(q), Outside, Outside)
    requires r == s.(threads := r.threads)
    ensures IdOk(r, id)
  {
    hide Occurs, Total, Msgs, Log;
  }

  // The launching thread gives up its reference, and possibly the context.
  lemma StartedKeeps(s: State, r: State, v: Service, g: Frame, h: Frame, q: Id, id: Id)
    requires IdOk(s, id) && AllGains(s, r, id, Started(q), g, h, Outside)
    requires q in s.services && v == s.services[q] && v.ref > 0
    requires if v.ref == 1 then g == Publish(q, false) && h == Delete(q) else g == Store(q) && h == Outside
    requires r == Update(s, q, v.(ref := v.ref - 1)).(threads := r.threads)
    ensures IdOk(r, id)
  {
    hide Occurs, Total, Msgs, Log;
  }

  lemma StoreKeeps(s: State, r: State, q: Id, id: Id)
    requires IdOk(s, id) && AllGains(s, r, id, Store(q), Publish(q, true), Outside, Outside)
    requires q in s.services
    requires r == Update(s, q, s.services[q].(init := true)).(threads := r.threads)
    ensures IdOk(r, id)
  {
    hide Occurs, Total, Msgs, Log;
  }

  lemma FailedKeeps(s: State, r: State, q: Id, id: Id)
    requires IdOk(s, id) && AllGains(s, r, id, Init(q), InitFailed(q), Release(q), Outside)
    requires r == s.(threads := r.threads)
    ensures IdOk(r, id)
  {
    hide Occurs, Total, Msgs, Log;
  }

  lemma UnregisteredKeeps(s: State, r: State, q: Id, id: Id)
    requires IdOk(s, id) && AllGains(s, r, id, InitFailed(q), MqRelease(q), Release(q), Outside)
    requires Registered(s, q)
    requires r == Update(s, q, s.services[q].(registered := false)).(threads := r.threads)
    ensures IdOk(r, id)
  {
    hide Occurs, Total, Msgs, Log;
  }

  lemma InitFailedKeeps(s: State, r: State, q: Id, id: Id)
    requires IdOk(s, id) && AllGains(s, r, id, InitFailed(q), MqRelease(q), Outside, Outside)
    requires !Registered(s, q) && r == s.(threads := r.threads)
    ensures IdOk(r, id)
  {
    hide Occurs, Total, Msgs, Log;
  }

  lemma PublishGains(s: State, r: State, q: Id, told: bool, g: Frame, id: Id)
    requires AllGains(s, r, id, Publish(q, told), g, Outside, Outside) && (g.Note? || g.Outside?)
    ensures Total(s, Refs, id) == Total(r, Refs, id)
    ensures Total(s, Deleters, id) == Total(r, Deleters, id)
    ensures Total(s, Holders, id) == Total(r, Holders, id)
    ensures Total(s, Builders, id) == Total(r, Builders, id) + B(q == id)
    ensures Total(s, Publishers, id) == Total(r, Publishers, id) + B(q == id)
    ensures Total(s, Dispatchers, id) == Total(r, Dispatchers, id)
    ensures Total(s, Droppers, id) == Total(r, Droppers, id)
    ensures Total(s, Freers, id) == Total(r, Freers, id)
  {
    hide Total;
  }

  lemma PublishKeeps(s: State, r: State, q: Id, told: bool, g: Frame, id: Id)
    requires IdOk(s, id) && AllGains(s, r, id, Publish(q, told), g, Outside, Outside) && (g.Note? || g.Outside?)
    requires r == Enqueue(s, q).(threads := r.threads)
    ensures IdOk(r, id)
  {
    hide AllGains, Occurs, Total, Msgs, Log;
    PublishGains(s, r, q, told, g, id);
    OccursAppended(s.global, q, id);
  }

  // -------------------------------------------------------------------------
  // Whole runs
  // -------------------------------------------------------------------------

  lemma UserKeeps(s: State, t: nat, c: Choice, f: Frame, after: seq<Frame>, id: Id)
    requires IdOk(s, id) && At(s, t, f) && c.Call? && IsCall(c.frame)
    ensures IdOk(UserCode(s, t, c, after), id)
  {
    hide IdOk, AllGains;
    var r := UserCode(s, t, c, after);
    StepGainsAll(s, t, f, 2, f, c.frame, Outside, r, id);
    CallKeeps(s, r, f, c.frame, id);
  }

  lemma WorkerKeeps(s: State, t: nat, c: Choice, f: Frame, id: Id)
    requires IdOk(s, id) && At(s, t, f) && (f.Fetch? || f.Enter? || Dispatches(f))
    ensures IdOk(Step(s, t, c), id)
  {
    hide IdOk, AllGains, TakeMessage;
    var r := Step(s, t, c);
    match f
    case Fetch =>
      if s.global != [] {
        StepGainsAll(s, t, f, 1, Enter(s.global[0]), Outside, Outside, r, id);
        FetchKeeps(s, r, s.global[0], id);
      }
    case Enter(q) =>
      if Registered(s, q) {
        StepGainsAll(s, t, f, 1, Next(q, 0, 1), Outside, Outside, r, id);
        GrabbedKeeps(s, r, q, id);
      } else {
        StepGainsAll(s, t, f, 2, Fetch, MqRelease(q), Outside, r, id);
        GoneKeeps(s, r, q, id);
      }
    case Next(q, i, n) => if q in s.services { NextKeeps(s, t, q, i, n, id); }
    case Counting(q, i, n) =>
      if q in s.services {
        var g := r.threads[t][|r.threads[t]| - 1];
        StepGainsAll(s, t, f, 1, g, Outside, Outside, r, id);
        GoOnKeeps(s, r, f, g, q, id);
      }
    case Callback(q, i, n) =>
      if c.Call? {
        if IsCall(c.frame) { UserKeeps(s, t, c, f, [Next(q, i + 1, n)], id); }
      } else {
        StepGainsAll(s, t, f, 1, Next(q, i + 1, n), Outside, Outside, r, id);
        GoOnKeeps(s, r, f, Next(q, i + 1, n), q, id);
      }
    case Finish(q) =>
      if s.global == [] {
        StepGainsAll(s, t, f, 2, Enter(q), Release(q), Outside, r, id);
        KeptKeeps(s, r, q, id);
      } else {
        StepGainsAll(s, t, f, 1, Swap(q, s.global[0]), Outside, Outside, r, id);
        SwapFoundKeeps(s, r, q, s.global[0], id);
      }
    case Swap(q, nq) =>
      StepGainsAll(s, t, f, 2, Enter(nq), Release(q), Outside, r, id);
      SwapKeeps(s, r, q, nq, id);
  }

  lemma NextKeeps(s: State, t: nat, q: Id, i: nat, n: nat, id: Id)
    requires IdOk(s, id) && At(s, t, Next(q, i, n)) && q in s.services
    ensures IdOk(StepNext(s, t, q, i, n), id)
  {
    hide IdOk, AllGains;
    var r := StepNext(s, t, q, i, n);
    var f := Next(q, i, n);
    if i >= n {
      StepGainsAll(s, t, f, 1, Finish(q), Outside, Outside, r, id);
      GoOnKeeps(s, r, f, Finish(q), q, id);
    } else if s.services[q].mq.msgs == [] {
      StepGainsAll(s, t, f, 2, Fetch, Release(q), Outside, r, id);
      IdleKeeps(s, r, f, q, id);
    } else {
      StepGainsAll(s, t, f, 1, Counting(q, i, n), Outside, Outside, r, id);
      TakenKeeps(s, r, f, Counting(q, i, n), q, id);
    }
  }

  lemma QueueKeeps(s: State, t: nat, c: Choice, f: Frame, id: Id)
    requires IdOk(s, id) && At(s, t, f)
    requires f.MqRelease? || f.Drop? || f.Free? || f.Post? || f.Send? || f.Touch?
    ensures IdOk(Step(s, t, c), id)
  {
    hide IdOk, AllGains;
    var r := Step(s, t, c);
    match f
    case MqRelease(q) =>
      if q in s.services {
        if s.services[q].mq.release {
          StepGainsAll(s, t, f, 1, Drop(q), Outside, Outside, r, id);
          DropStartsKeeps(s, r, q, id);
        } else {
          StepGainsAll(s, t, f, 0, Outside, Outside, Outside, r, id);
          PutBackKeeps(s, r, q, id);
        }
      }
    case Drop(q) =>
      if q in s.services {
        var msgs := s.services[q].mq.msgs;
        if msgs == [] {
          StepGainsAll(s, t, f, 1, Free(q), Outside, Outside, r, id);
          DropEndsKeeps(s, r, q, id);
        } else {
          var g := Send(msgs[0].source, Message(q, 0, 0));
          StepGainsAll(s, t, f, 2, f, g, Outside, r, id);
          DroppedKeeps(s, r, q, g, id);
        }
      }
    case Free(q) =>
      if q in s.services {
        StepGainsAll(s, t, f, 0, Outside, Outside, Outside, r, id);
        FreeKeeps(s, r, q, id);
      }
    case Post(q, msg) =>
      if q in s.services {
        StepGainsAll(s, t, f, 1, Release(q), Outside, Outside, r, id);
        PostKeeps(s, r, q, msg, id);
      }
    case Send(q, msg) => LookupKeeps(s, t, f, Post(q, msg), q, r, id);
    case Touch(q) => LookupKeeps(s, t, f, Release(q), q, r, id);
  }

  // A handle is looked up.
  lemma LookupKeeps(s: State, t: nat, f: Frame, g: Frame, q: Id, r: State, id: Id)
    requires IdOk(s, id) && At(s, t, f) && (f.Send? || f.Touch?) && (g.Post? || g.Release?) && g.id == q
    requires r == if Registered(s, q) then Become(Grab(s, q), t, [g]) else Become(s, t, [])
    ensures IdOk(r, id)
  {
    hide IdOk, AllGains;
    if Registered(s, q) {
      StepGainsAll(s, t, f, 1, g, Outside, Outside, r, id);
      ReferKeeps(s, r, f, g, q, id);
    } else {
      StepGainsAll(s, t, f, 0, Outside, Outside, Outside, r, id);
      NothingKeeps(s, r, f, id);
    }
  }

  lemma ContextKeeps(s: State, t: nat, c: Choice, f: Frame, id: Id)
    requires IdOk(s, id) && At(s, t, f)
    requires f.Release? || f.Delete? || f.Mark? || f.Retire? || f.Launch?
    ensures IdOk(Step(s, t, c), id)
  {
    hide IdOk, AllGains;
    var r := Step(s, t, c);
    match f
    case Release(q) =>
      if q in s.services && s.services[q].ref > 0 {
        var v := s.services[q];
        var g := if v.ref == 1 then Delete(q) else Outside;
        StepGainsAll(s, t, f, if v.ref == 1 then 1 else 0, g, Outside, Outside, r, id);
        ReleaseKeeps(s, r, v, g, q, id);
      }
    case Delete(q) =>
      if c.Call? {
        if IsCall(c.frame) { UserKeeps(s, t, c, f, [Mark(q)], id); }
      } else {
        StepGainsAll(s, t, f, 1, Mark(q), Outside, Outside, r, id);
        DeletedKeeps(s, r, q, id);
      }
    case Mark(q) =>
      if q in s.services {
        StepGainsAll(s, t, f, 0, Outside, Outside, Outside, r, id);
        MarkKeeps(s, r, s.services[q], q, id);
      }
    case Retire(q) =>
      if Registered(s, q) {
        StepGainsAll(s, t, f, 1, Release(q), Outside, Outside, r, id);
        RetireKeeps(s, r, q, id);
      } else {
        StepGainsAll(s, t, f, 0, Outside, Outside, Outside, r, id);
        NothingKeeps(s, r, f, id);
      }
    case Launch(q) =>
      if q !in s.used && q != 0 {
        StepGainsAll(s, t, f, 1, Init(q), Outside, Outside, r, id);
        LaunchKeeps(s, r, q, id);
      } else {
        StepGainsAll(s, t, f, 0, Outside, Outside, Outside, r, id);
        NothingKeeps(s, r, f, id);
      }
  }

  lemma StartKeeps(s: State, t: nat, c: Choice, f: Frame, id: Id)
    requires IdOk(s, id) && At(s, t, f) && (f.Init? || f.InitFailed? || f.Outside?)
    ensures IdOk(Step(s, t, c), id)
  {
    hide IdOk, AllGains;
    var r := Step(s, t, c);
    match f
    case Outside =>
      if c.Call? {
        if IsCall(c.frame) { UserKeeps(s, t, c, f, [], id); }
      }
    case Init(q) =>
      if c.Call? {
        if IsCall(c.frame) { UserKeeps(s, t, c, f, [], id); }
      } else if c.GiveUp? {
        StepGainsAll(s, t, f, 2, InitFailed(q), Release(q), Outside, r, id);
        FailedKeeps(s, r, q, id);
      } else {
        StepGainsAll(s, t, f, 1, Started(q), Outside, Outside, r, id);
        InitDoneKeeps(s, r, q, id);
      }
    case InitFailed(q) =>
      if Registered(s, q) {
        StepGainsAll(s, t, f, 2, MqRelease(q), Release(q), Outside, r, id);
        UnregisteredKeeps(s, r, q, id);
      } else {
        StepGainsAll(s, t, f, 1, MqRelease(q), Outside, Outside, r, id);
        InitFailedKeeps(s, r, q, id);
      }
  }

  lemma LaunchedKeeps(s: State, t: nat, c: Choice, f: Frame, id: Id)
    requires IdOk(s, id) && At(s, t, f) && (f.Started? || f.Store? || f.Publish? || f.Note?)
    ensures IdOk(Step(s, t, c), id)
  {
    hide IdOk, AllGains;
    var r := Step(s, t, c);
    match f
    case Started(q) =>
      if q in s.services && s.services[q].ref > 0 {
        var v := s.services[q];
        var g := if v.ref == 1 then Publish(q, false) else Store(q);
        var h := if v.ref == 1 then Delete(q) else Outside;
        StepGainsAll(s, t, f, if v.ref == 1 then 2 else 1, g, h, Outside, r, id);
        StartedKeeps(s, r, v, g, h, q, id);
      }
    case Store(q) =>
      if q in s.services {
        StepGainsAll(s, t, f, 1, Publish(q, true), Outside, Outside, r, id);
        StoreKeeps(s, r, q, id);
      }
    case Publish(q, told) =>
      var g := if told then Note(q) else Outside;
      StepGainsAll(s, t, f, if told then 1 else 0, g, Outside, Outside, r, id);
      PublishKeeps(s, r, q, told, g, id);
    case Note(q) =>
      StepGainsAll(s, t, f, 0, Outside, Outside, Outside, r, id);
      NothingKeeps(s, r, f, id);
  }
}
