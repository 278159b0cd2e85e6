// The timing wheel, skynet_timer.c.

module Timer {
  // Lists of timers by the digits of their expiry, and why every timer fires in its
  // very tick.

  const WRAP := 0x1_0000_0000
  const MAX_DELAY := 0x7FFF_FFFF

  // The spans of the wheel: one list of level 0 covers 2^8 ticks, of level 1
  // 2^14 and so on.
  const TIME_NEAR := 0x100
  const TIME_LEVEL := 0x40
  const SPAN1 := 0x4000
  const SPAN2 := 0x10_0000
  const SPAN3 := 0x400_0000

  type Time = t: nat | t < 0x1_0000_0000

  datatype Event = Event(handle: nat, session: int)

  datatype Node = Node(expire: Time, event: Event)

  // A list of the wheel.
  datatype Place = Near(idx: nat) | Level(level: nat, idx: nat)

  predicate IsPlace(p: Place) {
    match p
    case Near(idx) => idx < TIME_NEAR
    case Level(level, idx) => level < 4 && idx < TIME_LEVEL
  }

  function Span(level: nat): (s: nat)
    ensures s > 0
  {
    if level == 0 then TIME_NEAR else if level == 1 then SPAN1 else if level == 2 then SPAN2 else SPAN3
  }

  // `add_node`: where a node belongs at time `now`. Two times that agree after
  // setting the low bits of a mask lie in the same span.
  function PlaceOf(e: Time, now: Time): (p: Place)
    ensures IsPlace(p)
  {
    if e / TIME_NEAR == now / TIME_NEAR then Near(e % TIME_NEAR)
    else if e / SPAN1 == now / SPAN1 then Level(0, e / TIME_NEAR % TIME_LEVEL)
    else if e / SPAN2 == now / SPAN2 then Level(1, e / SPAN1 % TIME_LEVEL)
    else if e / SPAN3 == now / SPAN3 then Level(2, e / SPAN2 % TIME_LEVEL)
    else Level(3, e / SPAN3 % TIME_LEVEL)
  }

  type Lists = map<Place, seq<Node>>

  ghost predicate Complete(lists: Lists) { forall p :: IsPlace(p) ==> p in lists }

  // `link`
  function Linked(lists: Lists, p: Place, node: Node): (r: Lists)
    requires p in lists
  {
    lists[p := lists[p] + [node]]
  }

  // `add_node` for each node of a list, in order.
  ghost function AddAll(lists: Lists, now: Time, nodes: seq<Node>): (r: Lists)
    requires Complete(lists)
    ensures Complete(r)
  {
    if nodes == [] then lists
    else AddAll(Linked(lists, PlaceOf(nodes[0].expire, now), nodes[0]), now, nodes[1..])
  }

  // `move_list`
  ghost function Moved(lists: Lists, now: Time, p: Place): (r: Lists)
    requires Complete(lists) && IsPlace(p)
    ensures Complete(r)
  {
    AddAll(lists[p := []], now, lists[p])
  }

  function Tick(now: Time): Time { (now + 1) % WRAP }

  // The list that `timer_shift` moves when the time has become `now`, or none.
  function Shifted(now: Time): (p: Place)
    ensures IsPlace(p)
    ensures p.Near? <==> now % TIME_NEAR != 0
  {
    if now % TIME_NEAR != 0 then Near(0)
    else if now / TIME_NEAR % TIME_LEVEL != 0 then Level(0, now / TIME_NEAR % TIME_LEVEL)
    else if now / SPAN1 % TIME_LEVEL != 0 then Level(1, now / SPAN1 % TIME_LEVEL)
    else if now / SPAN2 % TIME_LEVEL != 0 then Level(2, now / SPAN2 % TIME_LEVEL)
    else Level(3, now / SPAN3 % TIME_LEVEL)
  }

  ghost function AfterShift(lists: Lists, now: Time): (r: Lists)
    requires Complete(lists)
    ensures Complete(r)
  {
    if Shifted(now).Near? then lists else Moved(lists, now, Shifted(now))
  }

  // -------------------------------------------------------------------------
  // Placement over time
  // -------------------------------------------------------------------------

  // Ticks until the time is `e`.
  function Remaining(e: Time, now: Time): (r: Time) {
    if e >= now then e - now else e + WRAP - now
  }

  predicate Pending(e: Time, now: Time) { 1 <= Remaining(e, now) <= MAX_DELAY }

  // One tick earlier, the number of the span.
  lemma SpanBefore(next: Time, span: nat)
    requires span in {TIME_NEAR, SPAN1, SPAN2, SPAN3} && next > 0
    ensures next % span != 0 ==> (next - 1) / span == next / span
    ensures next % span == 0 ==> (next - 1) / span == next / span - 1
  {
  }

  // The spans of one level in those of the next.
  lemma Nested(n: nat, span: nat)
    requires span in {TIME_NEAR, SPAN1, SPAN2}
    ensures n / span / TIME_LEVEL == n / (span * TIME_LEVEL)
    ensures n % span == 0 ==> (n / span % TIME_LEVEL == 0 <==> n % (span * TIME_LEVEL) == 0)
    ensures n % span != 0 ==> n % (span * TIME_LEVEL) != 0
  {
  }

  lemma SpansNested(n: nat)
    ensures n / TIME_NEAR / TIME_LEVEL == n / SPAN1 && n / SPAN1 / TIME_LEVEL == n / SPAN2
    ensures n / SPAN2 / TIME_LEVEL == n / SPAN3
    ensures n % TIME_NEAR == 0 ==> (n / TIME_NEAR % TIME_LEVEL == 0 <==> n % SPAN1 == 0)
    ensures n % SPAN1 == 0 ==> (n / SPAN1 % TIME_LEVEL == 0 <==> n % SPAN2 == 0)
    ensures n % SPAN2 == 0 ==> (n / SPAN2 % TIME_LEVEL == 0 <==> n % SPAN3 == 0)
    ensures n % TIME_NEAR != 0 ==> n % SPAN1 != 0
    ensures n % SPAN1 != 0 ==> n % SPAN2 != 0
    ensures n % SPAN2 != 0 ==> n % SPAN3 != 0
  {
    Nested(n, TIME_NEAR);
    Nested(n, SPAN1);
    Nested(n, SPAN2);
  }

  lemma SpanGrows(a: nat, b: nat, span: nat)
    requires span in {TIME_NEAR, SPAN1, SPAN2, SPAN3} && a <= b
    ensures a / span <= b / span
  {
  }

  // A pending node stays where it is when the time moves on, unless its list is
  // the one that is moved.
  lemma PlaceStays(e: Time, now: Time)
    requires Pending(e, now)
    ensures PlaceOf(e, now) == PlaceOf(e, Tick(now)) || (PlaceOf(e, now) == Shifted(Tick(now)) && Shifted(Tick(now)).Level?)
  {
    hide PlaceOf, Shifted;
    if e > now { PlaceStaysAhead(e, now + 1); } else { PlaceStaysBehind(e, now); }
  }

  lemma PlaceStaysAhead(e: Time, next: Time)
    requires 0 < next <= e
    ensures PlaceOf(e, next - 1) == PlaceOf(e, next) || (PlaceOf(e, next - 1) == Shifted(next) && Shifted(next).Level?)
  {
    SpanBefore(next, TIME_NEAR);
    SpanBefore(next, SPAN1);
    SpanBefore(next, SPAN2);
    SpanBefore(next, SPAN3);
    SpanGrows(next, e, TIME_NEAR);
    SpanGrows(next, e, SPAN1);
    SpanGrows(next, e, SPAN2);
    SpanGrows(next, e, SPAN3);
    SpansNested(e);
    SpansNested(next);
    AheadByDigits(e, next, e / TIME_NEAR, e / SPAN1, e / SPAN2, e / SPAN3,
                  next / TIME_NEAR, next / SPAN1, next / SPAN2, next / SPAN3);
  }

  // The same on the numbers of the spans alone.
  lemma AheadByDigits(e: Time, next: Time, e0: nat, e1: nat, e2: nat, e3: nat, n0: nat, n1: nat, n2: nat, n3: nat)
    requires 0 < next <= e
    requires e0 == e / TIME_NEAR && e1 == e / SPAN1 && e2 == e / SPAN2 && e3 == e / SPAN3
    requires n0 == next / TIME_NEAR && n1 == next / SPAN1 && n2 == next / SPAN2 && n3 == next / SPAN3
    requires n0 <= e0 && n1 <= e1 && n2 <= e2 && n3 <= e3
    requires e0 == n0 ==> e1 == n1
    requires e1 == n1 ==> e2 == n2
    requires e2 == n2 ==> e3 == n3
    requires (next - 1) / TIME_NEAR == n0 - (if next % TIME_NEAR == 0 then 1 else 0)
    requires (next - 1) / SPAN1 == n1 - (if next % TIME_NEAR == 0 && n0 % TIME_LEVEL == 0 then 1 else 0)
    requires (next - 1) / SPAN2 ==
             n2 - (if next % TIME_NEAR == 0 && n0 % TIME_LEVEL == 0 && n1 % TIME_LEVEL == 0 then 1 else 0)
    requires (next - 1) / SPAN3 ==
             n3 - (if next % TIME_NEAR == 0 && n0 % TIME_LEVEL == 0 && n1 % TIME_LEVEL == 0 && n2 % TIME_LEVEL == 0
                   then 1 else 0)
    ensures PlaceOf(e, next - 1) == PlaceOf(e, next) || (PlaceOf(e, next - 1) == Shifted(next) && Shifted(next).Level?)
  {
  }

  // Behind the current time are only nodes of the next round, at the top level.
  lemma PlaceStaysBehind(e: Time, now: Time)
    requires Pending(e, now) && e < now
    ensures PlaceOf(e, now) == PlaceOf(e, Tick(now)) || (PlaceOf(e, now) == Shifted(Tick(now)) && Shifted(Tick(now)).Level?)
  {
    hide PlaceOf, Shifted;
    FarBehind(e, now);
    if now + 1 < WRAP { FarBehind(e, now + 1); } else { NextRound(e); }
  }

  lemma FarBehind(e: Time, now: Time)
    requires e + 0x8000_0000 < now
    ensures PlaceOf(e, now) == Level(3, e / SPAN3 % TIME_LEVEL)
  {
  }

  lemma NextRound(e: Time)
    ensures e >= SPAN3 ==> PlaceOf(e, 0) == Level(3, e / SPAN3 % TIME_LEVEL)
    ensures e < SPAN3 ==> e / SPAN3 % TIME_LEVEL == 0
    ensures Shifted(0) == Level(3, 0)
  {
  }

  // What is in the list of the current time has come to its time.
  lemma DuePlace(e: Time, now: Time)
    requires Remaining(e, now) <= MAX_DELAY
    ensures PlaceOf(e, now) == Near(now % TIME_NEAR) <==> e == now
  {
  }

  // -------------------------------------------------------------------------
  // What the wheel holds
  // -------------------------------------------------------------------------

  // The nodes that expire at `e`, in order.
  function Matching(nodes: seq<Node>, e: Time): seq<Node> {
    if nodes == [] then []
    else (if nodes[0].expire == e then [nodes[0]] else []) + Matching(nodes[1..], e)
  }

  function Without(nodes: seq<Node>, e: Time): seq<Node> {
    if nodes == [] then []
    else (if nodes[0].expire == e then [] else [nodes[0]]) + Without(nodes[1..], e)
  }

  // The wheel holds the nodes `pend`, given in the order they were added: those
  // that expire at `e` are in the list that `add_node` would pick for `e` now,
  // in order, and nowhere else.
  ghost predicate Holds(lists: Lists, now: Time, pend: seq<Node>) {
    && Complete(lists)
    && forall p, e: Time :: IsPlace(p) ==> HoldsAt(lists, now, pend, p, e)
  }

  ghost predicate HoldsAt(lists: Lists, now: Time, pend: seq<Node>, p: Place, e: Time)
    requires p in lists
  {
    Matching(lists[p], e) == if p == PlaceOf(e, now) then Matching(pend, e) else []
  }

  ghost predicate AllPending(pend: seq<Node>, now: Time) {
    forall n :: n in pend ==> Pending(n.expire, now)
  }

  lemma {:induction false} MatchingConcat(a: seq<Node>, b: seq<Node>, e: Time)
    ensures Matching(a + b, e) == Matching(a, e) + Matching(b, e)
  {
    if a == [] {
      assert a + b == b;
    } else {
      var first := if a[0].expire == e then [a[0]] else [];
      MatchingConcat(a[1..], b, e);
      assert (a + b)[1..] == a[1..] + b;
      assert Matching(a + b, e) == first + (Matching(a[1..], e) + Matching(b, e));
    }
  }

  lemma {:induction false} SomeMatching(nodes: seq<Node>, e: Time) returns (n: Node)
    requires Matching(nodes, e) != []
    ensures n in nodes && n.expire == e
  {
    if nodes[0].expire == e { n := nodes[0]; } else { n := SomeMatching(nodes[1..], e); }
  }

  lemma MatchingOne(n: Node, e: Time)
    ensures Matching([n], e) == if n.expire == e then [n] else []
  {
    assert [n][1..] == [];
  }

  lemma LinkedMatching(lists: Lists, now: Time, n: Node, p: Place, e: Time)
    requires Complete(lists) && IsPlace(p)
    ensures Matching(Linked(lists, PlaceOf(n.expire, now), n)[p], e)
         == Matching(lists[p], e) + (if p == PlaceOf(e, now) then Matching([n], e) else [])
  {
    hide PlaceOf;
    MatchingOne(n, e);
    MatchingConcat(lists[p], [n], e);
  }

  lemma AddKeeps(lists: Lists, now: Time, pend: seq<Node>, n: Node)
    requires Holds(lists, now, pend)
    ensures Holds(Linked(lists, PlaceOf(n.expire, now), n), now, pend + [n])
  {
    hide PlaceOf, Linked;
    var r := Linked(lists, PlaceOf(n.expire, now), n);
    assert Complete(r) by { LinkedComplete(lists, PlaceOf(n.expire, now), n); }
    forall p, e: Time | IsPlace(p) ensures HoldsAt(r, now, pend + [n], p, e) {
      assert HoldsAt(lists, now, pend, p, e);
      LinkedMatching(lists, now, n, p, e);
      MatchingConcat(pend, [n], e);
    }
  }

  lemma LinkedComplete(lists: Lists, p: Place, n: Node)
    requires Complete(lists) && p in lists
    ensures Complete(Linked(lists, p, n))
  {
  }

  lemma {:induction false} AddAllMatching(lists: Lists, now: Time, nodes: seq<Node>, p: Place, e: Time)
    requires Complete(lists) && IsPlace(p)
    ensures Matching(AddAll(lists, now, nodes)[p], e)
         == Matching(lists[p], e) + (if p == PlaceOf(e, now) then Matching(nodes, e) else [])
    decreases |nodes|
  {
    hide PlaceOf, Linked, Matching;
    MatchingNothing(e);
    if nodes != [] {
      var next := Linked(lists, PlaceOf(nodes[0].expire, now), nodes[0]);
      LinkedComplete(lists, PlaceOf(nodes[0].expire, now), nodes[0]);
      LinkedMatching(lists, now, nodes[0], p, e);
      AddAllMatching(next, now, nodes[1..], p, e);
      MatchingConcat([nodes[0]], nodes[1..], e);
      assert nodes == [nodes[0]] + nodes[1..];
    }
  }

  // `timer_shift` brings every node to where it belongs in the new tick.
  lemma ShiftKeeps(lists: Lists, now: Time, pend: seq<Node>)
    requires Holds(lists, now, pend) && AllPending(pend, now)
    ensures Holds(AfterShift(lists, Tick(now)), Tick(now), pend)
  {
    hide PlaceOf, Shifted, Pending, Tick, AddAll, Matching;
    var next := Tick(now);
    var from := Shifted(next);
    var r := AfterShift(lists, next);
    forall p, e: Time | IsPlace(p) ensures HoldsAt(r, next, pend, p, e) {
      assert HoldsAt(lists, now, pend, p, e) && HoldsAt(lists, now, pend, from, e);
      if Matching(pend, e) != [] {
        var n := SomeMatching(pend, e);
        PlaceStays(e, now);
      }
      if !from.Near? {
        AddAllMatching(lists[from := []], next, lists[from], p, e);
        MatchingNothing(e);
      }
    }
  }

  lemma MatchingNothing(e: Time)
    ensures Matching([], e) == []
  {
  }

  lemma {:induction false} OnlyMatching(nodes: seq<Node>, e: Time)
    requires forall n :: n in nodes ==> n.expire == e
    ensures Matching(nodes, e) == nodes
  {
    if nodes != [] { OnlyMatching(nodes[1..], e); }
  }

  lemma {:induction false} InMatching(nodes: seq<Node>, n: Node)
    requires n in nodes
    ensures n in Matching(nodes, n.expire)
  {
    if nodes[0] != n { InMatching(nodes[1..], n); }
  }

  // The list of the current time holds exactly the nodes that have come to it.
  lemma DueList(lists: Lists, now: Time, pend: seq<Node>)
    requires Holds(lists, now, pend) && forall n :: n in pend ==> Remaining(n.expire, now) <= MAX_DELAY
    ensures lists[Near(now % TIME_NEAR)] == Matching(pend, now)
  {
    hide PlaceOf, Remaining, Matching;
    var p := Near(now % TIME_NEAR);
    forall n | n in lists[p] ensures n.expire == now {
      InMatching(lists[p], n);
      assert HoldsAt(lists, now, pend, p, n.expire);
      assert Matching(pend, n.expire) == Matching(lists[p], n.expire);
      var m := SomeMatching(pend, n.expire);
      DuePlace(n.expire, now);
    }
    OnlyMatching(lists[p], now);
    assert HoldsAt(lists, now, pend, p, now);
    DueHere(now);
  }

  lemma DueHere(now: Time)
    ensures PlaceOf(now, now) == Near(now % TIME_NEAR)
  {
  }

  lemma {:induction false} WithoutMatching(nodes: seq<Node>, now: Time, e: Time)
    ensures Matching(Without(nodes, now), e) == if e == now then [] else Matching(nodes, e)
  {
    if nodes != [] {
      WithoutMatching(nodes[1..], now, e);
      var first := if nodes[0].expire == now then [] else [nodes[0]];
      MatchingConcat(first, Without(nodes[1..], now), e);
      MatchingOne(nodes[0], e);
    }
  }

  // `timer_execute` takes that list out.
  lemma ExecuteKeeps(lists: Lists, now: Time, pend: seq<Node>)
    requires Holds(lists, now, pend) && forall n :: n in pend ==> Remaining(n.expire, now) <= MAX_DELAY
    ensures Holds(lists[Near(now % TIME_NEAR) := []], now, Without(pend, now))
  {
    hide PlaceOf, Remaining, Matching;
    var p := Near(now % TIME_NEAR);
    var r := lists[p := []];
    DueHere(now);
    DueList(lists, now, pend);
    forall q, e: Time | IsPlace(q) ensures HoldsAt(r, now, Without(pend, now), q, e) {
      assert HoldsAt(lists, now, pend, q, e);
      WithoutMatching(pend, now, e);
      MatchingNothing(e);
      if e != now && q == p && p == PlaceOf(e, now) && Matching(pend, e) != [] {
        var n := SomeMatching(pend, e);
        DuePlace(e, now);
      }
    }
  }

  // -------------------------------------------------------------------------
  // Runs
  // -------------------------------------------------------------------------

  // What may happen to the wheel, one step for each time it is locked:
  // `timer_add`; `timer_execute` finding out whether there is more to do; and
  // `timer_shift` with the `timer_execute` that follows it.
  datatype Op = Add(delay: int, event: Event) | Look | Advance

  datatype Wheel = Wheel(now: Time, lists: Lists)

  function Due(w: Wheel): (r: seq<Node>) {
    var p := Near(w.now % TIME_NEAR);
    if p in w.lists then w.lists[p] else []
  }

  function Executed(w: Wheel): Wheel { w.(lists := w.lists[Near(w.now % TIME_NEAR) := []]) }

  function Expiry(delay: int, now: Time): Time { (delay + now) % WRAP }

  ghost function Apply(w: Wheel, op: Op): (r: Wheel)
    requires Complete(w.lists)
    ensures Complete(r.lists)
  {
    match op
    case Add(delay, event) =>
      var n := Node(Expiry(delay, w.now), event);
      w.(lists := Linked(w.lists, PlaceOf(n.expire, w.now), n))
    case Look => Executed(w)
    case Advance => Executed(Wheel(Tick(w.now), AfterShift(w.lists, Tick(w.now))))
  }

  // The nodes that fire in a step.
  ghost function Fires(w: Wheel, op: Op): (r: seq<Node>)
    requires Complete(w.lists)
  {
    match op
    case Add(_, _) => []
    case Look => Due(w)
    case Advance => Due(Wheel(Tick(w.now), AfterShift(w.lists, Tick(w.now))))
  }

  ghost function RunOf(w: Wheel, ops: seq<Op>): (r: Wheel)
    requires Complete(w.lists)
    ensures Complete(r.lists)
  {
    if ops == [] then w else Apply(RunOf(w, ops[..|ops| - 1]), ops[|ops| - 1])
  }

  function Events(nodes: seq<Node>): seq<Event> {
    if nodes == [] then [] else [nodes[0].event] + Events(nodes[1..])
  }

  // An empty wheel at any time.
  ghost predicate Empty(w: Wheel) {
    Complete(w.lists) && forall p :: IsPlace(p) ==> w.lists[p] == []
  }

  function Ticks(ops: seq<Op>): nat {
    if ops == [] then 0 else Ticks(ops[..|ops| - 1]) + (if ops[|ops| - 1].Advance? then 1 else 0)
  }

  // The timers of a run in the order they were added, with the number of the
  // tick they are for.
  datatype Timeout = Timeout(tick: int, event: Event)

  function Timeouts(ops: seq<Op>): seq<Timeout> {
    if ops == [] then []
    else
      var before := ops[..|ops| - 1];
      match ops[|ops| - 1]
      case Add(delay, event) => Timeouts(before) + [Timeout(Ticks(before) + delay, event)]
      case _ => Timeouts(before)
  }

  // The events for one tick.
  function For(timeouts: seq<Timeout>, tick: int): seq<Event> {
    if timeouts == [] then []
    else (if timeouts[0].tick == tick then [timeouts[0].event] else []) + For(timeouts[1..], tick)
  }

  predicate DelaysOk(ops: seq<Op>) {
    forall k :: 0 <= k < |ops| && ops[k].Add? ==> 1 <= ops[k].delay <= MAX_DELAY
  }

  // The nodes of the timers for later ticks than `n`, when tick 0 was at `t0`.
  function Later(timeouts: seq<Timeout>, n: nat, t0: Time): seq<Node> {
    if timeouts == [] then []
    else (if timeouts[0].tick > n then [Node((t0 + timeouts[0].tick) % WRAP, timeouts[0].event)] else [])
         + Later(timeouts[1..], n, t0)
  }

  ghost predicate Near32(timeouts: seq<Timeout>, n: nat) {
    forall x :: x in timeouts ==> x.tick <= n + MAX_DELAY
  }

  // Within the range of delays the clock does not repeat itself.
  lemma ClockAhead(t0: Time, n: nat, tick: int)
    requires n < tick <= n + MAX_DELAY
    ensures Pending((t0 + tick) % WRAP, (t0 + n) % WRAP)
    ensures (t0 + tick) % WRAP == (t0 + n + 1) % WRAP <==> tick == n + 1
  {
    var now := (t0 + n) % WRAP;
    var d := tick - n;
    assert (t0 + tick) % WRAP == (now + d) % WRAP;
    assert (t0 + n + 1) % WRAP == (now + 1) % WRAP;
    assert (now + d) % WRAP == if now + d < WRAP then now + d else now + d - WRAP;
    assert (now + 1) % WRAP == if now + 1 < WRAP then now + 1 else now + 1 - WRAP;
  }

  lemma {:induction false} LaterPending(timeouts: seq<Timeout>, n: nat, t0: Time)
    requires Near32(timeouts, n)
    ensures AllPending(Later(timeouts, n, t0), (t0 + n) % WRAP)
  {
    hide Pending;
    if timeouts != [] {
      LaterPending(timeouts[1..], n, t0);
      if timeouts[0].tick > n { ClockAhead(t0, n, timeouts[0].tick); }
    }
  }

  lemma {:induction false} WithoutConcat(a: seq<Node>, b: seq<Node>, e: Time)
    ensures Without(a + b, e) == Without(a, e) + Without(b, e)
  {
    if a == [] {
      assert a + b == b;
    } else {
      var first := if a[0].expire == e then [] else [a[0]];
      WithoutConcat(a[1..], b, e);
      assert (a + b)[1..] == a[1..] + b;
      assert Without(a + b, e) == first + (Without(a[1..], e) + Without(b, e));
    }
  }

  lemma {:induction false} EventsConcat(a: seq<Node>, b: seq<Node>)
    ensures Events(a + b) == Events(a) + Events(b)
  {
    if a == [] {
      assert a + b == b;
    } else {
      EventsConcat(a[1..], b);
      assert (a + b)[1..] == a[1..] + b;
    }
  }

  lemma OneNode(n: Node, e: Time)
    ensures Without([n], e) == if n.expire == e then [] else [n]
    ensures Events([n]) == [n.event] && Events([]) == [] && Without([], e) == []
  {
    assert [n][1..] == [];
  }

  lemma LaterHead(timeouts: seq<Timeout>, n: nat, t0: Time)
    ensures timeouts == [] ==> forall m: nat :: Later(timeouts, m, t0) == [] && For(timeouts, m) == []
    ensures timeouts != [] ==>
              var x := timeouts[0];
              var node := Node((t0 + x.tick) % WRAP, x.event);
              && Later(timeouts, n, t0) == (if x.tick > n then [node] else []) + Later(timeouts[1..], n, t0)
              && Later(timeouts, n + 1, t0) == (if x.tick > n + 1 then [node] else []) + Later(timeouts[1..], n + 1, t0)
              && For(timeouts, n + 1) == (if x.tick == n + 1 then [x.event] else []) + For(timeouts[1..], n + 1)
  {
  }

  lemma {:induction false} LaterTick(timeouts: seq<Timeout>, n: nat, t0: Time)
    requires Near32(timeouts, n)
    ensures var next: Time := (t0 + n + 1) % WRAP;
            && Without(Later(timeouts, n, t0), next) == Later(timeouts, n + 1, t0)
            && Events(Matching(Later(timeouts, n, t0), next)) == For(timeouts, n + 1)
  {
    hide Matching, Without, Events, Pending, Later, For;
    LaterHead(timeouts, n, t0);
    var next: Time := (t0 + n + 1) % WRAP;
    MatchingNothing(next);
    if timeouts == [] {
      OneNode(Node(0, Event(0, 0)), next);
    } else {
      var x := timeouts[0];
      var node := Node((t0 + x.tick) % WRAP, x.event);
      var head := if x.tick > n then [node] else [];
      LaterTick(timeouts[1..], n, t0);
      OneNode(node, next);
      MatchingOne(node, next);
      if x.tick > n { ClockAhead(t0, n, x.tick); }
      var rest := Later(timeouts[1..], n, t0);
      WithoutConcat(head, rest, next);
      MatchingConcat(head, rest, next);
      EventsConcat(Matching(head, next), Matching(rest, next));
    }
  }

  lemma {:induction false} LaterAppended(timeouts: seq<Timeout>, x: Timeout, n: nat, t0: Time)
    requires x.tick > n
    ensures Later(timeouts + [x], n, t0) == Later(timeouts, n, t0) + [Node((t0 + x.tick) % WRAP, x.event)]
  {
    if timeouts != [] {
      LaterAppended(timeouts[1..], x, n, t0);
      assert (timeouts + [x])[1..] == timeouts[1..] + [x];
    } else {
      assert [x][1..] == [];
    }
  }

  // -------------------------------------------------------------------------
  // Every timer fires in its tick
  // -------------------------------------------------------------------------

  lemma {:induction false} TimeoutsNear(ops: seq<Op>)
    requires DelaysOk(ops)
    ensures Near32(Timeouts(ops), Ticks(ops))
  {
    if ops != [] {
      var before := ops[..|ops| - 1];
      assert forall k :: 0 <= k < |before| ==> before[k] == ops[k];
      TimeoutsNear(before);
    }
  }

  // The state of the wheel after any run: the timers for later ticks.
  ghost predicate InStep(w: Wheel, t0: Time, ops: seq<Op>) {
    && Complete(w.lists) && w.now == (t0 + Ticks(ops)) % WRAP
    && Holds(w.lists, w.now, Later(Timeouts(ops), Ticks(ops), t0))
  }

  lemma EmptyHolds(w: Wheel)
    requires Empty(w)
    ensures InStep(w, w.now, [])
  {
    hide PlaceOf;
    forall p, e: Time | IsPlace(p) ensures HoldsAt(w.lists, w.now, [], p, e) {
      MatchingNothing(e);
    }
  }

  lemma RemainingBound(pend: seq<Node>, now: Time)
    requires AllPending(pend, now)
    ensures forall n :: n in pend ==> Remaining(n.expire, now) <= MAX_DELAY
  {
  }

  lemma Appended(ops: seq<Op>, op: Op)
    ensures Ticks(ops + [op]) == Ticks(ops) + (if op.Advance? then 1 else 0)
    ensures Timeouts(ops + [op]) ==
            if op.Add? then Timeouts(ops) + [Timeout(Ticks(ops) + op.delay, op.event)] else Timeouts(ops)
  {
    assert (ops + [op])[..|ops|] == ops;
  }

  // `Look` finds nothing, as a timer is at least one tick ahead.
  lemma {:induction false} NothingDue(pend: seq<Node>, now: Time)
    requires AllPending(pend, now)
    ensures Matching(pend, now) == [] && Without(pend, now) == pend
  {
    if pend != [] { NothingDue(pend[1..], now); }
  }

  lemma HoldsComplete(lists: Lists, now: Time, pend: seq<Node>)
    requires Holds(lists, now, pend)
    ensures Complete(lists)
  {
  }

  lemma InStepComplete(w: Wheel, t0: Time, ops: seq<Op>)
    requires InStep(w, t0, ops)
    ensures Complete(w.lists)
  {
  }

  lemma LookKeeps(w: Wheel, t0: Time, ops: seq<Op>)
    requires InStep(w, t0, ops) && DelaysOk(ops)
    ensures Due(w) == [] && InStep(Executed(w), t0, ops + [Look])
  {
    hide Holds, PlaceOf, Matching, Without, Later, Ticks, Timeouts;
    var pend := Later(Timeouts(ops), Ticks(ops), t0);
    TimeoutsNear(ops);
    LaterPending(Timeouts(ops), Ticks(ops), t0);
    RemainingBound(pend, w.now);
    NothingDue(pend, w.now);
    DueIs(w, pend);
    ExecuteKeeps(w.lists, w.now, pend);
    HoldsComplete(Executed(w).lists, w.now, pend);
    Appended(ops, Look);
  }

  lemma DueIs(w: Wheel, pend: seq<Node>)
    requires Holds(w.lists, w.now, pend) && forall n :: n in pend ==> Remaining(n.expire, w.now) <= MAX_DELAY
    ensures Due(w) == Matching(pend, w.now)
  {
    hide PlaceOf, Matching, Remaining;
    DueList(w.lists, w.now, pend);
    assert IsPlace(Near(w.now % TIME_NEAR));
  }

  lemma AddStep(w: Wheel, t0: Time, ops: seq<Op>, delay: int, event: Event)
    requires InStep(w, t0, ops) && 1 <= delay <= MAX_DELAY
    ensures InStep(Apply(w, Add(delay, event)), t0, ops + [Add(delay, event)])
  {
    hide Holds, PlaceOf, Matching, Without, Later, Ticks, Timeouts;
    var n := Ticks(ops);
    var x := Timeout(n + delay, event);
    var node := Node(Expiry(delay, w.now), event);
    AddKeeps(w.lists, w.now, Later(Timeouts(ops), n, t0), node);
    LaterAppended(Timeouts(ops), x, n, t0);
    SameExpiry(t0, n, delay);
    Appended(ops, Add(delay, event));
  }

  lemma SameExpiry(t0: Time, n: nat, delay: nat)
    ensures (delay + (t0 + n) % WRAP) % WRAP == (t0 + (n + delay)) % WRAP
  {
  }

  lemma AdvanceStep(w: Wheel, t0: Time, ops: seq<Op>)
    requires InStep(w, t0, ops) && DelaysOk(ops)
    ensures InStep(Apply(w, Advance), t0, ops + [Advance])
    ensures Events(Fires(w, Advance)) == For(Timeouts(ops), Ticks(ops) + 1)
  {
    hide Holds, PlaceOf, Matching, Without, Later, AfterShift, Pending, Remaining, Ticks, Timeouts, AllPending, For, Events, Near32;
    var n := Ticks(ops);
    var pend := Later(Timeouts(ops), n, t0);
    var moved := Wheel(Tick(w.now), AfterShift(w.lists, Tick(w.now)));
    TimeoutsNear(ops);
    LaterPending(Timeouts(ops), n, t0);
    ShiftKeeps(w.lists, w.now, pend);
    NearerPending(pend, w.now);
    DueIs(moved, pend);
    ExecuteKeeps(moved.lists, moved.now, pend);
    HoldsComplete(Executed(moved).lists, moved.now, Without(pend, moved.now));
    LaterTick(Timeouts(ops), n, t0);
    NextTime(t0, n);
    Appended(ops, Advance);
  }

  lemma NextTime(t0: Time, n: nat)
    ensures Tick((t0 + n) % WRAP) == (t0 + n + 1) % WRAP == (t0 + (n + 1)) % WRAP
  {
  }

  lemma NearerPending(pend: seq<Node>, now: Time)
    requires AllPending(pend, now)
    ensures forall n :: n in pend ==> Remaining(n.expire, Tick(now)) <= MAX_DELAY
  {
  }

  lemma {:induction false} RunInStep(w: Wheel, ops: seq<Op>)
    requires Empty(w) && DelaysOk(ops)
    ensures InStep(RunOf(w, ops), w.now, ops)
    decreases |ops|
  {
    hide InStep, Apply;
    if ops == [] {
      EmptyHolds(w);
    } else {
      var before := ops[..|ops| - 1];
      assert forall k :: 0 <= k < |before| ==> before[k] == ops[k];
      RunInStep(w, before);
      var op := ops[|ops| - 1];
      assert ops == before + [op];
      OneStep(RunOf(w, before), w.now, before, op);
    }
  }

  lemma OneStep(w: Wheel, t0: Time, ops: seq<Op>, op: Op)
    requires InStep(w, t0, ops) && DelaysOk(ops) && (op.Add? ==> 1 <= op.delay <= MAX_DELAY)
    ensures Complete(w.lists) && InStep(Apply(w, op), t0, ops + [op])
  {
    hide InStep, AfterShift, Linked, PlaceOf, Executed;
    InStepComplete(w, t0, ops);
    match op
    case Add(delay, event) => AddStep(w, t0, ops, delay, event);
    case Look =>
      LookKeeps(w, t0, ops);
      assert Apply(w, op) == Executed(w);
    case Advance => AdvanceStep(w, t0, ops);
  }

  // In any run of an empty wheel, whatever its time, a tick fires exactly the
  // events whose delay, counted in ticks from when they were added, ends with
  // it, in the order they were added; nothing fires at any other moment.
  lemma FiresOnTime(w: Wheel, ops: seq<Op>, k: nat)
    requires Empty(w) && DelaysOk(ops) && k < |ops|
    ensures Events(Fires(RunOf(w, ops[..k]), ops[k]))
         == if ops[k].Advance? then For(Timeouts(ops[..k]), Ticks(ops[..k]) + 1) else []
  {
    hide InStep, RunOf, AfterShift, Executed, For, Timeouts, Ticks, Complete;
    var before := ops[..k];
    assert forall j :: 0 <= j < |before| ==> before[j] == ops[j];
    RunInStep(w, before);
    match ops[k]
    case Add(_, _) =>
    case Look => LookKeeps(RunOf(w, before), w.now, before);
    case Advance => AdvanceStep(RunOf(w, before), w.now, before);
  }

  // -------------------------------------------------------------------------
  // The wheel in place
  // -------------------------------------------------------------------------

  lemma NearPlace(e: Time, now: Time)
    requires e / TIME_NEAR == now / TIME_NEAR
    ensures PlaceOf(e, now) == Near(e % TIME_NEAR)
  {
  }

  // The loop of `add_node`.
  method LevelOf(e: Time, now: Time) returns (i: nat, idx: nat)
    requires e / TIME_NEAR != now / TIME_NEAR
    ensures i < 4 && idx < TIME_LEVEL && PlaceOf(e, now) == Level(i, idx)
  {
    i := 0;
    var mask := SPAN1;
    while i < 3
      invariant 0 <= i <= 3 && (i < 3 ==> mask == Span(i + 1))
      invariant forall k :: 1 <= k <= i ==> e / Span(k) != now / Span(k)
    {
      if e / mask == now / mask { break; }
      mask := mask * TIME_LEVEL;
      i := i + 1;
    }
    idx := e / Span(i) % TIME_LEVEL;
    if i >= 1 { assert e / Span(1) != now / Span(1); }
    if i >= 2 { assert e / Span(2) != now / Span(2); }
    if i >= 3 { assert e / Span(3) != now / Span(3); }
  }

  // The loop of `timer_shift` finds the lowest digit that is not zero.
  lemma ShiftedAt(now: Time, i: nat)
    requires i < 4 && now % Span(i) == 0 && now / Span(i) % TIME_LEVEL != 0
    requires forall k :: 0 <= k < i ==> now % Span(k) == 0 && now / Span(k) % TIME_LEVEL == 0
    ensures Shifted(now) == Level(i, now / Span(i) % TIME_LEVEL)
  {
    SpansNested(now);
    if i >= 1 { assert now / Span(0) % TIME_LEVEL == 0; }
    if i >= 2 { assert now / Span(1) % TIME_LEVEL == 0; }
    if i >= 3 { assert now / Span(2) % TIME_LEVEL == 0; }
    if i > 0 { assert now % Span(0) == 0; }
  }

  lemma ShiftMoves(lists: Lists, now: Time, p: Place)
    requires Complete(lists) && Shifted(now) == p && p.Level?
    ensures IsPlace(p) && AfterShift(lists, now) == Moved(lists, now, p)
  {
  }

  lemma NothingShifted(lists: Lists, now: Time, i: nat)
    requires Complete(lists) && i < 4 && now % Span(i) != 0
    requires forall k :: 0 <= k < i ==> now % Span(k) == 0 && now / Span(k) % TIME_LEVEL == 0
    ensures AfterShift(lists, now) == lists
  {
    hide Moved;
    if i > 0 {
      assert now % Span(i - 1) == 0 && now / Span(i - 1) % TIME_LEVEL == 0;
      SpansNested(now);
    }
  }

  // The next digit, and that the top one is the last.
  lemma NextDigit(now: Time, i: nat)
    requires 0 < now && i < 4 && now % Span(i) == 0 && now / Span(i) % TIME_LEVEL == 0
    ensures i < 3 && now % Span(i + 1) == 0 && now / Span(i) / TIME_LEVEL == now / Span(i + 1)
    ensures Span(i) * TIME_LEVEL == Span(i + 1)
  {
    SpansNested(now);
  }

  class TimerWheel {
    var time: Time
    var near: array<seq<Node>>
    var t: array2<seq<Node>>
    ghost var lists: Lists

    ghost predicate Valid()
      reads this, near, t
    {
      && near.Length == TIME_NEAR && t.Length0 == 4 && t.Length1 == TIME_LEVEL
      && Complete(lists)
      && (forall i :: 0 <= i < TIME_NEAR ==> near[i] == lists[Near(i)])
      && (forall i, j :: 0 <= i < 4 && 0 <= j < TIME_LEVEL ==> t[i, j] == lists[Level(i, j)])
    }

    ghost function View(): Wheel
      reads this
    {
      Wheel(time, lists)
    }

    // `timer_create_timer`
    constructor ()
      ensures Valid() && fresh(near) && fresh(t) && time == 0 && Empty(View())
    {
      time := 0;
      near := new seq<Node>[TIME_NEAR](_ => []);
      t := new seq<Node>[4, TIME_LEVEL]((_, _) => []);
      lists := (map i: nat | i < TIME_NEAR :: Near(i) := []) +
               (map i: nat, j: nat | i < 4 && j < TIME_LEVEL :: Level(i, j) := []);
    }

    // `add_node`
    method AddNode(node: Node)
      requires Valid()
      modifies this`lists, near, t
      ensures Valid()
      ensures lists == Linked(old(lists), PlaceOf(node.expire, time), node)
    {
      hide PlaceOf;
      var e := node.expire;
      if e / TIME_NEAR == time / TIME_NEAR {
        var idx := e % TIME_NEAR;
        NearPlace(e, time);
        near[idx] := near[idx] + [node];
        lists := Linked(lists, Near(idx), node);
      } else {
        var i, idx := LevelOf(e, time);
        t[i, idx] := t[i, idx] + [node];
        lists := Linked(lists, Level(i, idx), node);
      }
    }

    // `timer_add`
    method TimerAdd(event: Event, delay: int)
      requires Valid() && 1 <= delay <= MAX_DELAY
      modifies this`lists, near, t
      ensures Valid() && View() == Apply(old(View()), Add(delay, event))
    {
      AddNode(Node(Expiry(delay, time), event));
    }

    // `move_list`
    method MoveList(level: nat, idx: nat)
      requires Valid() && level < 4 && idx < TIME_LEVEL
      modifies this`lists, near, t
      ensures Valid() && lists == Moved(old(lists), time, Level(level, idx))
    {
      var current := t[level, idx];
      t[level, idx] := [];
      lists := lists[Level(level, idx) := []];
      while current != []
        invariant Valid()
        invariant AddAll(lists, time, current) == Moved(old(lists), time, Level(level, idx))
        decreases |current|
      {
        AddNode(current[0]);
        current := current[1..];
      }
    }

    // `timer_shift`
    method TimerShift()
      requires Valid()
      modifies this`time, this`lists, near, t
      ensures Valid() && View() == Wheel(Tick(old(time)), AfterShift(old(lists), Tick(old(time))))
    {
      hide AfterShift, Moved;
      time := (time + 1) % WRAP;
      ghost var start := lists;
      if time == 0 {
        MoveList(3, 0);
        NextRound(0);
        ShiftMoves(start, time, Level(3, 0));
      } else {
        var i: nat, mask: nat, rest: nat := 0, TIME_NEAR, time / TIME_NEAR;
        while time % mask == 0
          invariant i <= 3 && mask == Span(i) && rest == time / mask
          invariant Valid() && lists == start
          invariant forall k :: 0 <= k < i ==> time % Span(k) == 0 && time / Span(k) % TIME_LEVEL == 0
          modifies this`lists, near, t
          decreases 3 - i
        {
          var idx := rest % TIME_LEVEL;
          if idx != 0 {
            ShiftedAt(time, i);
            MoveList(i, idx);
            ShiftMoves(start, time, Level(i, idx));
            return;
          }
          NextDigit(time, i);
          mask := mask * TIME_LEVEL;
          rest := rest / TIME_LEVEL;
          i := i + 1;
        }
        NothingShifted(start, time, i);
      }
    }

    // `timer_execute`, with the list it dispatches.
    method TimerExecute() returns (fired: seq<Node>)
      requires Valid()
      modifies this`lists, near
      ensures Valid() && View() == Executed(old(View())) && fired == Due(old(View()))
    {
      var idx := time % TIME_NEAR;
      fired := [];
      while near[idx] != []
        invariant Valid() && fired + near[idx] == Due(old(View()))
        invariant lists[Near(idx) := []] == old(lists)[Near(idx) := []]
        invariant near[idx] != [] ==> fired == []
        decreases |near[idx]|
      {
        fired := fired + near[idx];
        near[idx] := [];
        lists := lists[Near(idx) := []];
      }
      assert lists == lists[Near(idx) := []];
    }

    // `timer_update`
    method TimerUpdate() returns (fired: seq<Node>)
      requires Valid()
      modifies this`time, this`lists, near, t
      ensures Valid() && View() == Apply(Apply(old(View()), Look), Advance)
      ensures fired == Fires(old(View()), Look) + Fires(Apply(old(View()), Look), Advance)
    {
      var first := TimerExecute();
      TimerShift();
      var second := TimerExecute();
      fired := first + second;
    }
  }
}
