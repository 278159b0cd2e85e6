// The message queue of a service and the global queue (skynet_mq.c).

module MessageQueue {
  // A ring buffer with flags, and a linked list.

  datatype Message = Message(source: nat, session: int, payload: int)

  // What a queue is to the rest of the system.
  datatype Mq = Mq(msgs: seq<Message>, inGlobal: bool, release: bool)

  // `skynet_mq_push`; the caller puts the queue into the global queue if it is
  // not marked as being there.
  function Pushed(q: Mq, m: Message): Mq {
    q.(msgs := q.msgs + [m], inGlobal := true)
  }

  // `skynet_mq_pop`
  function Popped(q: Mq): Mq {
    if q.msgs == [] then q.(inGlobal := false) else q.(msgs := q.msgs[1..])
  }

  // `skynet_mq_mark_release`
  function Marked(q: Mq): Mq { q.(release := true) }

  const DEFAULT_QUEUE_SIZE := 64
  const MQ_OVERLOAD := 1024

  // The `n` elements of a ring from `head` on.
  function Ring<T>(s: seq<T>, head: nat, n: nat): (r: seq<T>)
    requires head < |s| && n <= |s|
    ensures |r| == n
  {
    if head + n <= |s| then s[head..head + n] else s[head..] + s[..head + n - |s|]
  }

  // Where the element behind the ring goes, and where the second one is.
  function Around(cap: nat, i: nat): nat { if i < cap then i else i - cap }

  lemma RingAt<T>(s: seq<T>, head: nat, n: nat, i: nat)
    requires head < |s| && i < n <= |s|
    ensures Ring(s, head, n)[i] == s[Around(|s|, head + i)]
  {
  }

  lemma WholeRing<T>(s: seq<T>, n: nat)
    requires 0 < |s| && n <= |s|
    ensures Ring(s, 0, n) == s[..n]
  {
  }

  lemma RingPopped<T>(s: seq<T>, head: nat, n: nat)
    requires head < |s| && 0 < n <= |s|
    ensures s[head] == Ring(s, head, n)[0]
    ensures Ring(s, Around(|s|, head + 1), n - 1) == Ring(s, head, n)[1..]
  {
  }

  lemma RingPushed<T>(s: seq<T>, head: nat, n: nat, x: T)
    requires head < |s| && n < |s|
    ensures Ring(s[Around(|s|, head + n) := x], head, n + 1) == Ring(s, head, n) + [x]
  {
    var t := s[Around(|s|, head + n) := x];
    forall i | 0 <= i < n + 1 ensures Ring(t, head, n + 1)[i] == (Ring(s, head, n) + [x])[i] {
      RingAt(t, head, n + 1, i);
      if i < n { RingAt(s, head, n, i); }
    }
  }

  // The threshold after `length` messages have been seen: doubled until it is
  // not exceeded.
  function Threshold(length: nat, threshold: nat): (r: nat)
    requires threshold > 0
    ensures r >= threshold && r >= length
    decreases length - threshold
  {
    if length > threshold then Threshold(length, threshold * 2) else threshold
  }

  class Queue {
    const handle: nat
    var head: nat
    var tail: nat
    var release: bool
    var inGlobal: bool
    var overload: nat
    var overloadThreshold: nat
    var queue: array<Message>
    var next: Queue?

    ghost predicate Valid()
      reads this, queue
    {
      && queue.Length > 0 && head < queue.Length && tail < queue.Length
      && overloadThreshold > 0
    }

    ghost function Count(): (n: nat)
      reads this, queue
      requires Valid()
      ensures n < queue.Length
    {
      if head <= tail then tail - head else tail + queue.Length - head
    }

    // The queue as the rest of the system sees it.
    ghost function View(): Mq
      reads this, queue
      requires Valid()
    {
      Mq(Ring(queue[..], head, Count()), inGlobal, release)
    }

    // `skynet_mq_create`: not in the global queue, but marked as if it were.
    constructor (handle: nat)
      ensures Valid() && fresh(queue) && View() == Mq([], true, false)
      ensures this.handle == handle && next == null && overload == 0 && overloadThreshold == MQ_OVERLOAD
    {
      this.handle := handle;
      head, tail := 0, 0;
      inGlobal, release := true, false;
      overload, overloadThreshold := 0, MQ_OVERLOAD;
      queue := new Message[DEFAULT_QUEUE_SIZE](_ => Message(0, 0, 0));
      next := null;
    }

    // `skynet_mq_length`
    method Length() returns (n: nat)
      requires Valid()
      ensures n == |View().msgs|
    {
      if head <= tail { return tail - head; }
      return tail + queue.Length - head;
    }

    // `skynet_mq_overload`
    method Overload() returns (n: nat)
      requires Valid()
      modifies this`overload
      ensures n == old(overload) && overload == 0
      ensures Valid() && View() == old(View())
    {
      n := overload;
      if overload != 0 { overload := 0; }
    }

    // `skynet_mq_pop`
    method Pop() returns (message: Message, empty: bool)
      requires Valid()
      modifies this
      ensures Valid() && queue == old(queue) && next == old(next)
      ensures View() == Popped(old(View()))
      ensures empty == (old(View()).msgs == [])
      ensures !empty ==> message == old(View()).msgs[0]
      ensures !empty ==> overloadThreshold == Threshold(|View().msgs|, old(overloadThreshold))
      ensures overload == if !empty && |View().msgs| > old(overloadThreshold) then |View().msgs| else old(overload)
      ensures empty ==> overloadThreshold == MQ_OVERLOAD
    {
      hide Ring;
      if head == tail {
        overloadThreshold := MQ_OVERLOAD;
        inGlobal := false;
        return Message(0, 0, 0), true;
      }
      empty := false;
      message := queue[head];
      ghost var count := Count();
      RingPopped(queue[..], head, count);
      head := head + 1;
      if head >= queue.Length { head := 0; }
      var length: int := tail - head;
      if length < 0 { length := length + queue.Length; }
      assert length == count - 1;
      while length > overloadThreshold
        invariant overloadThreshold > 0
        invariant Threshold(length, overloadThreshold) == Threshold(length, old(overloadThreshold))
        invariant overload == if overloadThreshold > old(overloadThreshold) then length else old(overload)
        invariant overloadThreshold >= old(overloadThreshold)
        modifies `overload, `overloadThreshold
        decreases length - overloadThreshold
      {
        overload := length;
        overloadThreshold := overloadThreshold * 2;
      }
    }

    // `expand_queue`, called when the ring is full.
    method Expand(ghost n: nat)
      requires queue.Length > 0 && head == tail < queue.Length && overloadThreshold > 0 && n == queue.Length
      modifies this
      ensures Valid() && fresh(queue) && next == old(next)
      ensures View() == Mq(Ring(old(queue[..]), old(head), n), old(inGlobal), old(release))
      ensures overload == old(overload) && overloadThreshold == old(overloadThreshold)
    {
      hide Ring;
      ghost var before := Ring(queue[..], head, n);
      var bigger := new Message[queue.Length * 2](_ => Message(0, 0, 0));
      var i := 0;
      while i < queue.Length
        invariant 0 <= i <= queue.Length
        invariant forall j :: 0 <= j < i ==> bigger[j] == before[j]
        modifies bigger
      {
        Wraps(queue.Length, head + i);
        RingAt(queue[..], head, n, i);
        bigger[i] := queue[(head + i) % queue.Length];
        i := i + 1;
      }
      tail := queue.Length;
      head := 0;
      queue := bigger;
      WholeRing(queue[..], n);
      assert queue[..n] == before;
    }

    // `skynet_mq_push`; `enter` tells whether the queue is then put into the
    // global queue.
    method Push(message: Message) returns (enter: bool)
      requires Valid()
      modifies this, queue
      ensures Valid() && (queue == old(queue) || fresh(queue)) && next == old(next)
      ensures View() == Pushed(old(View()), message)
      ensures enter == !old(View()).inGlobal
      ensures overload == old(overload) && overloadThreshold == old(overloadThreshold)
    {
      hide Ring;
      ghost var n := Count();
      assert tail == Around(queue.Length, head + n);
      RingPushed(queue[..], head, n, message);
      queue[tail] := message;
      assert queue[..] == old(queue[..])[tail := message];
      tail := tail + 1;
      if tail >= queue.Length { tail := 0; }
      if head == tail { Expand(n + 1); }
      enter := !inGlobal;
      if !inGlobal { inGlobal := true; }
    }

    // `skynet_mq_mark_release`
    method MarkRelease() returns (enter: bool)
      requires Valid() && !release
      modifies this`release
      ensures Valid() && View() == Marked(old(View()))
      ensures enter == !old(View()).inGlobal
    {
      release := true;
      enter := !inGlobal;
    }
  }

  lemma Wraps(cap: nat, x: nat)
    requires 0 < cap && x < 2 * cap
    ensures x % cap == if x < cap then x else x - cap
  {
    var d := x / cap;
    assert x == d * cap + x % cap;
    assert d >= 2 ==> d * cap >= 2 * cap;
    assert 0 * cap == 0 && 1 * cap == cap;
  }

  // -------------------------------------------------------------------------
  // The global queue
  // -------------------------------------------------------------------------

  class GlobalQueue {
    var head: Queue?
    var tail: Queue?
    ghost var list: seq<Queue>

    ghost predicate Valid()
      reads this, list
    {
      && (list == [] ==> head == null && tail == null)
      && (list != [] ==> head == list[0] && tail == list[|list| - 1] && list[|list| - 1].next == null)
      && (forall i, j :: 0 <= i < j < |list| ==> list[i] != list[j])
      && (forall i :: 0 <= i < |list| - 1 ==> list[i].next == list[i + 1])
    }

    constructor ()
      ensures Valid() && list == []
    {
      head, tail, list := null, null, [];
    }

    // `skynet_globalmq_push`
    method Push(q: Queue)
      requires Valid() && q !in list && q.next == null
      modifies this, list`next
      ensures Valid() && list == old(list) + [q] && q.next == null
    {
      if tail != null {
        tail.next := q;
        tail := q;
      } else {
        head, tail := q, q;
      }
      list := list + [q];
    }

    // `skynet_globalmq_pop`
    method Pop() returns (q: Queue?)
      requires Valid()
      modifies this, list`next
      ensures Valid()
      ensures old(list) == [] ==> q == null && list == []
      ensures old(list) != [] ==> q == old(list[0]) && list == old(list[1..]) && q.next == null && q !in list
    {
      q := head;
      if q != null {
        assert |list| > 1 ==> q.next == list[1];
        head := q.next;
        if head == null {
          assert q == tail;
          tail := null;
        }
        q.next := null;
        list := list[1..];
      }
    }
  }
}
