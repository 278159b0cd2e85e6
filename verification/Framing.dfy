// Packets in a byte stream, lua-netpack.c.

module Framing {
  // Each packet is preceded by its length in two bytes, and the stream arrives in
  // pieces.

  import opened PegSyntax
  import opened MessageQueue

  // -------------------------------------------------------------------------
  // What a stream stands for
  // -------------------------------------------------------------------------

  // `read_size`
  function SizeOf(a: Byte, b: Byte): nat { a * 256 + b }

  predicate Whole(s: seq<Byte>) { |s| >= 2 && |s| >= 2 + SizeOf(s[0], s[1]) }

  // The packets that are complete, and the bytes behind them.
  function Packets(s: seq<Byte>): seq<seq<Byte>> {
    if !Whole(s) then [] else [s[2..2 + SizeOf(s[0], s[1])]] + Packets(s[2 + SizeOf(s[0], s[1])..])
  }

  function Rest(s: seq<Byte>): seq<Byte> {
    if !Whole(s) then s else Rest(s[2 + SizeOf(s[0], s[1])..])
  }

  // The first packet of a stream, and the same with more bytes behind it.
  lemma WholeMore(s: seq<Byte>, more: seq<Byte>)
    requires Whole(s)
    ensures var n, t := 2 + SizeOf(s[0], s[1]), s + more;
            Whole(t) && 2 + SizeOf(t[0], t[1]) == n && t[2..n] == s[2..n] && t[n..] == s[n..] + more
  {
  }

  lemma Unfold(s: seq<Byte>)
    requires Whole(s)
    ensures var n := 2 + SizeOf(s[0], s[1]);
            Packets(s) == [s[2..n]] + Packets(s[n..]) && Rest(s) == Rest(s[n..])
  {
  }

  lemma Associative<T>(a: seq<T>, b: seq<T>, c: seq<T>)
    ensures a + (b + c) == (a + b) + c
  {
  }

  // More bytes complete what was left.
  lemma {:induction false} MoreBytes(s: seq<Byte>, more: seq<Byte>)
    ensures Packets(s + more) == Packets(s) + Packets(Rest(s) + more)
    ensures Rest(s + more) == Rest(Rest(s) + more)
    decreases |s|
  {
    if !Whole(s) {
      assert Packets(s) == [] && Rest(s) == s;
    } else {
      hide Packets, Rest, SizeOf, Whole;
      var n := 2 + SizeOf(s[0], s[1]);
      MoreBytes(s[n..], more);
      WholeMore(s, more);
      Unfold(s);
      Unfold(s + more);
      Associative([s[2..n]], Packets(s[n..]), Packets(Rest(s) + more));
    }
  }

  // `lpack`
  function Packed(p: seq<Byte>): (s: seq<Byte>)
    requires |p| < 0x1_0000
    ensures |s| == |p| + 2
  {
    [|p| / 256, |p| % 256] + p
  }

  function AllPacked(ps: seq<seq<Byte>>): seq<Byte>
    requires forall k :: 0 <= k < |ps| ==> |ps[k]| < 0x1_0000
  {
    if ps == [] then [] else Packed(ps[0]) + AllPacked(ps[1..])
  }

  // What was packed comes out again.
  lemma {:induction false} UnpacksPacked(ps: seq<seq<Byte>>)
    requires forall k :: 0 <= k < |ps| ==> |ps[k]| < 0x1_0000
    ensures Packets(AllPacked(ps)) == ps && Rest(AllPacked(ps)) == []
  {
    if ps != [] {
      UnpacksPacked(ps[1..]);
      var s := AllPacked(ps);
      assert s[2..2 + |ps[0]|] == ps[0] && s[2 + |ps[0]|..] == AllPacked(ps[1..]);
    }
  }

  // -------------------------------------------------------------------------
  // Runs
  // -------------------------------------------------------------------------

  // A completed packet and the descriptor it came from.
  datatype Pack = Pack(id: nat, data: seq<Byte>)

  function Tagged(fd: nat, ps: seq<seq<Byte>>): (r: seq<Pack>)
    ensures |r| == |ps|
  {
    seq(|ps|, k requires 0 <= k < |ps| => Pack(fd, ps[k]))
  }

  // The packets of one descriptor.
  function Of(fd: nat, done: seq<Pack>): seq<seq<Byte>> {
    if done == [] then []
    else Of(fd, done[..|done| - 1]) + (if done[|done| - 1].id == fd then [done[|done| - 1].data] else [])
  }

  lemma {:induction false} OfConcat(fd: nat, a: seq<Pack>, b: seq<Pack>)
    ensures Of(fd, a + b) == Of(fd, a) + Of(fd, b)
    decreases b
  {
    if b == [] {
      assert a + b == a;
    } else {
      var n := |b| - 1;
      OfConcat(fd, a, b[..n]);
      assert (a + b)[..|a + b| - 1] == a + b[..n];
    }
  }

  lemma {:induction false} OfTagged(fd: nat, other: nat, ps: seq<seq<Byte>>)
    ensures Of(fd, Tagged(other, ps)) == if fd == other then ps else []
    decreases ps
  {
    if ps != [] {
      var n := |ps| - 1;
      OfTagged(fd, other, ps[..n]);
      assert Tagged(other, ps)[..n] == Tagged(other, ps[..n]);
    }
  }

  // What has happened: the bytes that wait for more, and all packets that were
  // completed, in order.
  datatype Log = Log(waiting: map<nat, seq<Byte>>, done: seq<Pack>)

  function Waiting(log: Log, fd: nat): seq<Byte> { if fd in log.waiting then log.waiting[fd] else [] }

  function Fed(log: Log, fd: nat, chunk: seq<Byte>): Log {
    var s := Waiting(log, fd) + chunk;
    Log(log.waiting[fd := Rest(s)], log.done + Tagged(fd, Packets(s)))
  }

  function Closed(log: Log, fd: nat): Log { log.(waiting := log.waiting[fd := []]) }

  datatype Event = Data(fd: nat, chunk: seq<Byte>) | Close(fd: nat)

  function Run(events: seq<Event>): Log {
    if events == [] then Log(map[], [])
    else
      var log := Run(events[..|events| - 1]);
      match events[|events| - 1]
      case Data(fd, chunk) => Fed(log, fd, chunk)
      case Close(fd) => Closed(log, fd)
  }

  // The bytes that came from a descriptor since it was last closed, and what
  // happened up to then.
  function Since(events: seq<Event>, fd: nat): seq<Byte> {
    if events == [] then []
    else
      var n := |events| - 1;
      match events[n]
      case Data(d, chunk) => if d == fd then Since(events[..n], fd) + chunk else Since(events[..n], fd)
      case Close(d) => if d == fd then [] else Since(events[..n], fd)
  }

  function Before(events: seq<Event>, fd: nat): (r: seq<Event>)
    ensures r <= events && (r != [] ==> r[|r| - 1] == Close(fd))
  {
    if events == [] || events[|events| - 1] == Close(fd) then events
    else Before(events[..|events| - 1], fd)
  }

  // However the streams of the descriptors are cut into pieces and mixed: what
  // comes out for each of them are the packets its own stream stands for, and
  // what waits is the incomplete rest of it.
  lemma {:induction false} PiecesDoNotMatter(events: seq<Event>, fd: nat)
    ensures Waiting(Run(events), fd) == Rest(Since(events, fd))
    ensures Of(fd, Run(events).done) == Of(fd, Run(Before(events, fd)).done) + Packets(Since(events, fd))
    decreases |events|
  {
    hide Packets, Rest, Of;
    if events != [] {
      var n := |events| - 1;
      PiecesDoNotMatter(events[..n], fd);
      match events[n]
      case Data(d, chunk) => PieceAdds(events, fd);
      case Close(d) =>
        if d == fd { NothingLeft(); }
    } else {
      NothingLeft();
    }
  }

  lemma NothingLeft()
    ensures Packets([]) == [] && Rest([]) == []
  {
  }

  lemma PieceAdds(events: seq<Event>, fd: nat)
    requires events != [] && events[|events| - 1].Data?
    requires var e := events[..|events| - 1];
             && Waiting(Run(e), fd) == Rest(Since(e, fd))
             && Of(fd, Run(e).done) == Of(fd, Run(Before(e, fd)).done) + Packets(Since(e, fd))
    ensures Waiting(Run(events), fd) == Rest(Since(events, fd))
    ensures Of(fd, Run(events).done) == Of(fd, Run(Before(events, fd)).done) + Packets(Since(events, fd))
  {
    hide Packets, Rest, Of, Tagged;
    var e := events[..|events| - 1];
    var Data(d, chunk) := events[|events| - 1];
    var s := Waiting(Run(e), d) + chunk;
    assert Before(events, fd) == Before(e, fd);
    assert Run(events) == Fed(Run(e), d, chunk);
    OfConcat(fd, Run(e).done, Tagged(d, Packets(s)));
    OfTagged(fd, d, Packets(s));
    if d == fd {
      MoreBytes(Since(e, fd), chunk);
      assert Since(events, fd) == Since(e, fd) + chunk;
    }
  }

  // -------------------------------------------------------------------------
  // Incomplete packets
  // -------------------------------------------------------------------------

  // `struct uncomplete`: with `read` -1 only the first byte of the length is
  // known, otherwise `read` of `size` bytes are there.
  datatype Uncomplete = Uncomplete(id: nat, read: int, header: nat, size: nat, buffer: seq<Byte>)

  predicate RecordOk(u: Uncomplete) {
    if u.read < 0 then u.read == -1 && u.header < 256
    else u.read == |u.buffer| < u.size < 0x1_0000
  }

  // The bytes of the stream it stands for.
  function BytesOf(u: Uncomplete): (s: seq<Byte>)
    requires RecordOk(u)
    ensures s != [] && !Whole(s)
  {
    if u.read < 0 then [u.header] else [u.size / 256, u.size % 256] + u.buffer
  }

  const HASHSIZE := 4096
  const QUEUESIZE := 1024

  // `hash_fd`
  function HashFd(fd: nat): (h: nat)
    ensures h < HASHSIZE
  {
    (fd / 0x100_0000 + fd / 0x1000 + fd) % HASHSIZE
  }

  // A chain holds incomplete packets of different descriptors.
  ghost predicate ChainOk(chain: seq<Uncomplete>, h: nat) {
    && (forall k :: 0 <= k < |chain| ==> RecordOk(chain[k]) && HashFd(chain[k].id) == h)
    && (forall j, k :: 0 <= j < k < |chain| ==> chain[j].id != chain[k].id)
  }

  ghost predicate ChainsOk(chains: seq<seq<Uncomplete>>) {
    |chains| == HASHSIZE && forall h :: 0 <= h < HASHSIZE ==> ChainOk(chains[h], h)
  }

  ghost function WaitingIn(chain: seq<Uncomplete>, fd: nat): seq<Byte>
    requires forall k :: 0 <= k < |chain| ==> RecordOk(chain[k])
  {
    if chain == [] then []
    else if chain[0].id == fd then BytesOf(chain[0])
    else WaitingIn(chain[1..], fd)
  }

  // The chains hold what waits according to the log.
  ghost predicate Agrees(chains: seq<seq<Uncomplete>>, log: Log) {
    ChainsOk(chains) && forall fd: nat :: AgreesAt(chains, log, fd)
  }

  ghost predicate AgreesAt(chains: seq<seq<Uncomplete>>, log: Log, fd: nat)
    requires ChainsOk(chains)
  {
    assert ChainOk(chains[HashFd(fd)], HashFd(fd));
    WaitingIn(chains[HashFd(fd)], fd) == Waiting(log, fd)
  }

  lemma {:induction false} WaitingAt(chain: seq<Uncomplete>, h: nat, k: nat)
    requires ChainOk(chain, h) && k < |chain|
    ensures WaitingIn(chain, chain[k].id) == BytesOf(chain[k])
  {
    if k > 0 { WaitingAt(chain[1..], h, k - 1); }
  }

  lemma {:induction false} WaitingNone(chain: seq<Uncomplete>, h: nat, fd: nat)
    requires ChainOk(chain, h) && forall k :: 0 <= k < |chain| ==> chain[k].id != fd
    ensures WaitingIn(chain, fd) == []
  {
    if chain != [] { WaitingNone(chain[1..], h, fd); }
  }

  function WithoutAt(chain: seq<Uncomplete>, k: nat): seq<Uncomplete>
    requires k < |chain|
  {
    chain[..k] + chain[k + 1..]
  }

  lemma WithoutOk(chain: seq<Uncomplete>, h: nat, k: nat)
    requires ChainOk(chain, h) && k < |chain|
    ensures ChainOk(WithoutAt(chain, k), h)
    ensures forall j :: 0 <= j < |chain| - 1 ==> WithoutAt(chain, k)[j].id != chain[k].id
  {
    hide HashFd, RecordOk;
    var r := WithoutAt(chain, k);
    assert forall j :: 0 <= j < |r| ==> r[j] == chain[if j < k then j else j + 1];
  }

  // Taking one out leaves the others.
  lemma {:induction false} WaitingOthers(chain: seq<Uncomplete>, h: nat, k: nat, fd: nat)
    requires ChainOk(chain, h) && k < |chain|
    ensures ChainOk(WithoutAt(chain, k), h)
    ensures WaitingIn(WithoutAt(chain, k), fd) == if fd == chain[k].id then [] else WaitingIn(chain, fd)
  {
    hide HashFd, RecordOk, BytesOf;
    WithoutOk(chain, h, k);
    var r := WithoutAt(chain, k);
    if fd == chain[k].id {
      WaitingNone(r, h, fd);
    } else if k == 0 {
      assert r == chain[1..];
    } else {
      WaitingOthers(chain[1..], h, k - 1, fd);
      assert r[0] == chain[0] && r[1..] == WithoutAt(chain[1..], k - 1);
    }
  }

  lemma TakenAgrees(chains: seq<seq<Uncomplete>>, log: Log, h: nat, k: nat)
    requires Agrees(chains, log) && h < HASHSIZE && k < |chains[h]|
    ensures ChainOk(chains[h], h) && Waiting(log, chains[h][k].id) == BytesOf(chains[h][k])
    ensures Agrees(chains[h := WithoutAt(chains[h], k)], Closed(log, chains[h][k].id))
  {
    hide HashFd, WaitingIn;
    var fd := chains[h][k].id;
    var r := chains[h := WithoutAt(chains[h], k)];
    assert ChainOk(chains[h], h) && AgreesAt(chains, log, fd);
    WaitingAt(chains[h], h, k);
    WaitingOthers(chains[h], h, k, fd);
    forall g | 0 <= g < HASHSIZE ensures ChainOk(r[g], g) {
      assert ChainOk(chains[g], g);
    }
    forall d: nat ensures AgreesAt(r, Closed(log, fd), d) {
      assert AgreesAt(chains, log, d);
      WaitingOthers(chains[h], h, k, d);
    }
  }

  lemma NothingWaits(chains: seq<seq<Uncomplete>>, log: Log, fd: nat)
    requires Agrees(chains, log) && forall k :: 0 <= k < |chains[HashFd(fd)]| ==> chains[HashFd(fd)][k].id != fd
    ensures Waiting(log, fd) == [] && Agrees(chains, Closed(log, fd))
  {
    hide HashFd;
    assert ChainOk(chains[HashFd(fd)], HashFd(fd)) && AgreesAt(chains, log, fd);
    WaitingNone(chains[HashFd(fd)], HashFd(fd), fd);
    forall d: nat ensures AgreesAt(chains, Closed(log, fd), d) {
      assert AgreesAt(chains, log, d);
    }
  }

  lemma SavedAgrees(chains: seq<seq<Uncomplete>>, log: Log, u: Uncomplete)
    requires Agrees(chains, log) && RecordOk(u) && Waiting(log, u.id) == []
    ensures var h := HashFd(u.id);
            Agrees(chains[h := [u] + chains[h]], log.(waiting := log.waiting[u.id := BytesOf(u)]))
  {
    hide HashFd;
    var h := HashFd(u.id);
    var r := chains[h := [u] + chains[h]];
    assert ChainOk(chains[h], h) && AgreesAt(chains, log, u.id);
    forall k | 0 <= k < |chains[h]| ensures chains[h][k].id != u.id {
      WaitingAt(chains[h], h, k);
    }
    forall g | 0 <= g < HASHSIZE ensures ChainOk(r[g], g) {
      assert ChainOk(chains[g], g);
    }
    assert r[h][1..] == chains[h];
    var next := log.(waiting := log.waiting[u.id := BytesOf(u)]);
    forall d: nat ensures AgreesAt(r, next, d) {
      assert AgreesAt(chains, log, d);
    }
  }

  // The log is the same for a map that says nothing waits and one that does
  // not say anything.
  ghost predicate SameLog(a: Log, b: Log) {
    a.done == b.done && forall fd: nat :: Waiting(a, fd) == Waiting(b, fd)
  }

  lemma AgreesSame(chains: seq<seq<Uncomplete>>, a: Log, b: Log)
    requires Agrees(chains, a) && forall fd: nat :: Waiting(a, fd) == Waiting(b, fd)
    ensures Agrees(chains, b)
  {
    hide HashFd, WaitingIn;
    forall fd: nat ensures AgreesAt(chains, b, fd) {
      assert AgreesAt(chains, a, fd);
    }
  }

  lemma AgreesParts(chains: seq<seq<Uncomplete>>, log: Log)
    requires Agrees(chains, log)
    ensures |chains| == HASHSIZE
    ensures forall h, k :: 0 <= h < HASHSIZE && 0 <= k < |chains[h]| ==> RecordOk(chains[h][k])
  {
    forall h, k | 0 <= h < HASHSIZE && 0 <= k < |chains[h]| ensures RecordOk(chains[h][k]) {
      assert ChainOk(chains[h], h);
    }
  }

  lemma StartAgrees(chains: seq<seq<Uncomplete>>)
    requires |chains| == HASHSIZE && forall h :: 0 <= h < HASHSIZE ==> chains[h] == []
    ensures Agrees(chains, Log(map[], []))
  {
  }

  // -------------------------------------------------------------------------
  // The filter
  // -------------------------------------------------------------------------

  // What waits for `fd` has become `s`.
  ghost predicate WaitsAfter(a: Log, b: Log, fd: nat, s: seq<Byte>) {
    forall d: nat :: Waiting(b, d) == if d == fd then s else Waiting(a, d)
  }

  // Nothing is complete yet.
  lemma NotYet(fd: nat, s: seq<Byte>)
    requires !Whole(s)
    ensures Packets(s) == [] && Rest(s) == s && Tagged(fd, Packets(s)) == []
  {
  }

  lemma FirstPacket(fd: nat, s: seq<Byte>)
    requires Whole(s)
    ensures var n := 2 + SizeOf(s[0], s[1]);
            && Packets(s) == [s[2..n]] + Packets(s[n..]) && Rest(s) == Rest(s[n..])
            && Tagged(fd, Packets(s)) == [Pack(fd, s[2..n])] + Tagged(fd, Packets(s[n..]))
  {
    var n := 2 + SizeOf(s[0], s[1]);
    assert Packets(s) == [s[2..n]] + Packets(s[n..]);
    TaggedFirst(fd, s[2..n], Packets(s[n..]));
  }

  lemma TaggedFirst(fd: nat, p: seq<Byte>, ps: seq<seq<Byte>>)
    ensures Tagged(fd, [p] + ps) == [Pack(fd, p)] + Tagged(fd, ps)
  {
    var r := Tagged(fd, [p] + ps);
    forall k | 0 <= k < |r| ensures r[k] == ([Pack(fd, p)] + Tagged(fd, ps))[k] {
      assert ([p] + ps)[k] == if k == 0 then p else ps[k - 1];
    }
  }

  // The bytes of an incomplete packet with the ones that follow.
  lemma BytesThen(u: Uncomplete, chunk: seq<Byte>)
    requires RecordOk(u) && chunk != []
    ensures u.read < 0 ==>
              BytesOf(u) + chunk == [(u.header * 256 + chunk[0]) / 256, (u.header * 256 + chunk[0]) % 256] + [] + chunk[1..]
    ensures u.read >= 0 ==> BytesOf(u) + chunk == [u.size / 256, u.size % 256] + u.buffer + chunk
  {
    if u.read < 0 {
      SizeBytes(u.header, chunk[0]);
      assert chunk == [chunk[0]] + chunk[1..];
    }
  }

  // Bytes behind a packet are either further packets or wait.
  lemma SomethingLeft(s: seq<Byte>)
    requires s != []
    ensures Packets(s) != [] || Rest(s) != []
  {
  }

  lemma SizeBytes(a: nat, b: nat)
    requires a < 256 && b < 256
    ensures (a * 256 + b) / 256 == a && (a * 256 + b) % 256 == b
  {
  }

  lemma Cut(head: seq<Byte>, data: seq<Byte>, s: seq<Byte>, need: nat)
    requires need <= |s|
    ensures var all, n := head + data + s, |data| + need;
            all[|head|..|head| + n] == data + s[..need] && all[|head| + n..] == s[need..]
  {
  }

  // What the filter reports, and the queue before and after it.
  ghost predicate Reported(r: Reply, was: seq<Pack>, now: seq<Pack>, fd: nat, s: seq<Byte>) {
    var ps := Packets(s);
    if ps == [] then r == Nothing && now == was
    else if |ps| == 1 && Rest(s) == [] then r == Single(fd, ps[0]) && now == was
    else r == Several && now == was + Tagged(fd, ps)
  }

  // What the filter reports: nothing yet, one packet, or more packets that are
  // in the queue.
  datatype Reply = Nothing | Single(fd: nat, data: seq<Byte>) | Several

  class Framer {
    var head: nat
    var tail: nat
    var queue: array<Pack>
    var hash: array<seq<Uncomplete>>
    ghost var log: Log

    ghost predicate Valid()
      reads this, queue, hash
    {
      && queue.Length > 0 && head < queue.Length && tail < queue.Length
      && Agrees(hash[..], log)
    }

    // The packets in the queue.
    ghost function Contents(): seq<Pack>
      requires queue.Length > 0 && head < queue.Length && tail < queue.Length
      reads this, queue
    {
      Ring(queue[..], head, if head <= tail then tail - head else tail + queue.Length - head)
    }

    constructor ()
      ensures Valid() && fresh(queue) && fresh(hash) && Contents() == [] && log == Log(map[], [])
    {
      head, tail := 0, 0;
      queue := new Pack[QUEUESIZE](_ => Pack(0, []));
      hash := new seq<Uncomplete>[HASHSIZE](_ => []);
      log := Log(map[], []);
      new;
      StartAgrees(hash[..]);
    }

    // `find_uncomplete`: the incomplete packet of a descriptor is taken out of
    // its chain.
    method FindUncomplete(fd: nat) returns (r: Option<Uncomplete>)
      requires Agrees(hash[..], log)
      modifies hash, this`log
      ensures Agrees(hash[..], log) && log == Closed(old(log), fd)
      ensures r.None? ==> Waiting(old(log), fd) == []
      ensures r.Some? ==> r.value.id == fd && RecordOk(r.value) && Waiting(old(log), fd) == BytesOf(r.value)
    {
      hide HashFd, Agrees, ChainOk;
      var h := HashFd(fd);
      ghost var was := hash[..];
      AgreesParts(was, log);
      var chain := hash[h];
      var k := 0;
      while k < |chain| && chain[k].id != fd
        invariant k <= |chain| && forall j :: 0 <= j < k ==> chain[j].id != fd
      {
        k := k + 1;
      }
      if k == |chain| {
        NothingWaits(was, log, fd);
        log := Closed(log, fd);
        return None;
      }
      TakenAgrees(was, log, h, k);
      hash[h] := WithoutAt(chain, k);
      assert hash[..] == was[h := WithoutAt(chain, k)];
      log := Closed(log, fd);
      return Some(chain[k]);
    }

    // `save_uncomplete`, with what is written to the new record after it.
    method SaveUncomplete(u: Uncomplete)
      requires Agrees(hash[..], log) && RecordOk(u) && Waiting(log, u.id) == []
      modifies hash, this`log
      ensures Agrees(hash[..], log) && log == old(log).(waiting := old(log).waiting[u.id := BytesOf(u)])
    {
      hide HashFd, Agrees, ChainOk;
      ghost var was := hash[..];
      assert |was| == HASHSIZE by { AgreesParts(was, log); }
      var h := HashFd(u.id);
      SavedAgrees(was, log, u);
      hash[h] := [u] + hash[h];
      assert hash[..] == was[h := [u] + was[h]];
      log := log.(waiting := log.waiting[u.id := BytesOf(u)]);
    }

    // `push_data`, with `expand_queue` when the queue is full.
    method PushData(fd: nat, data: seq<Byte>)
      requires Valid()
      modifies this`head, this`tail, this`queue, queue
      ensures Valid() && (queue == old(queue) || fresh(queue))
      ensures Contents() == old(Contents()) + [Pack(fd, data)]
    {
      hide Agrees;
      ghost var n := if head <= tail then tail - head else tail + queue.Length - head;
      ghost var was := queue[..];
      RingPushed(was, head, n, Pack(fd, data));
      queue[tail] := Pack(fd, data);
      assert queue[..] == was[Around(|was|, head + n) := Pack(fd, data)];
      tail := tail + 1;
      if tail >= queue.Length { tail := tail - queue.Length; }
      if head == tail {
        Expand(n + 1);
      }
    }

    // `expand_queue`
    method Expand(ghost n: nat)
      requires queue.Length > 0 && head == tail < queue.Length && n == queue.Length
      modifies this`head, this`tail, this`queue
      ensures fresh(queue) && queue.Length == old(queue.Length) + QUEUESIZE && head == 0 && tail == old(queue.Length)
      ensures Contents() == Ring(old(queue[..]), old(head), n)
    {
      var cap := queue.Length;
      var nq := new Pack[cap + QUEUESIZE](_ => Pack(0, []));
      ghost var ring := Ring(queue[..], head, n);
      for i := 0 to cap
        invariant queue == old(queue) && head == old(head) && queue[..] == old(queue[..])
        invariant nq[..i] == ring[..i]
      {
        RingAt(queue[..], head, n, i);
        nq[i] := queue[if head + i < cap then head + i else head + i - cap];
        assert nq[..i + 1] == nq[..i] + [nq[i]];
      }
      head, tail, queue := 0, cap, nq;
      assert queue[0..cap] == ring;
    }

    // `push_more`
    method PushMore(fd: nat, s: seq<Byte>)
      requires Valid() && s != [] && Waiting(log, fd) == []
      modifies this, queue, hash
      ensures Valid() && (queue == old(queue) || fresh(queue)) && hash == old(hash)
      ensures Contents() == old(Contents()) + Tagged(fd, Packets(s))
      ensures log.done == old(log).done && WaitsAfter(old(log), log, fd, Rest(s))
      decreases |s|
    {
      hide Agrees, Ring, Packets, Rest, Tagged;
      if |s| == 1 {
        NotYet(fd, s);
        SaveUncomplete(Uncomplete(fd, -1, s[0], 0, []));
        return;
      }
      var n := SizeOf(s[0], s[1]);
      if |s| - 2 < n {
        NotYet(fd, s);
        SizeBytes(s[0], s[1]);
        assert [s[0], s[1]] + s[2..] == s;
        SaveUncomplete(Uncomplete(fd, |s| - 2, 0, n, s[2..]));
        return;
      }
      FirstPacket(fd, s);
      PushData(fd, s[2..2 + n]);
      if |s| - 2 - n > 0 {
        PushMore(fd, s[2 + n..]);
      } else {
        NotYet(fd, s[2 + n..]);
      }
    }

    // `filter_data_` without an incomplete packet.
    method Begin(fd: nat, s: seq<Byte>) returns (r: Reply)
      requires Valid() && s != [] && Waiting(log, fd) == []
      modifies this, queue, hash
      ensures Valid() && (queue == old(queue) || fresh(queue)) && hash == old(hash)
      ensures log.done == old(log).done && WaitsAfter(old(log), log, fd, Rest(s))
      ensures Reported(r, old(Contents()), Contents(), fd, s)
    {
      hide Agrees, Ring, Packets, Rest, Tagged;
      if |s| == 1 {
        NotYet(fd, s);
        SaveUncomplete(Uncomplete(fd, -1, s[0], 0, []));
        return Nothing;
      }
      var n := SizeOf(s[0], s[1]);
      if |s| - 2 < n {
        NotYet(fd, s);
        SizeBytes(s[0], s[1]);
        assert [s[0], s[1]] + s[2..] == s;
        SaveUncomplete(Uncomplete(fd, |s| - 2, 0, n, s[2..]));
        return Nothing;
      }
      FirstPacket(fd, s);
      if |s| - 2 == n {
        NotYet(fd, s[2 + n..]);
        return Single(fd, s[2..]);
      }
      SomethingLeft(s[2 + n..]);
      PushData(fd, s[2..2 + n]);
      PushMore(fd, s[2 + n..]);
      return Several;
    }

    // `filter_data_` with an incomplete packet, which has been taken out: its
    // size may have to be completed first.
    method Continue(fd: nat, u: Uncomplete, chunk: seq<Byte>) returns (r: Reply)
      requires Valid() && chunk != [] && Waiting(log, fd) == [] && RecordOk(u)
      modifies this, queue, hash
      ensures Valid() && (queue == old(queue) || fresh(queue)) && hash == old(hash)
      ensures log.done == old(log).done && WaitsAfter(old(log), log, fd, Rest(BytesOf(u) + chunk))
      ensures Reported(r, old(Contents()), Contents(), fd, BytesOf(u) + chunk)
    {
      hide Agrees, Ring, Packets, Rest, Tagged, WaitsAfter, Reported;
      BytesThen(u, chunk);
      if u.read < 0 {
        r := Fill(fd, u.header, u.header * 256 + chunk[0], [], chunk[1..]);
      } else {
        r := Fill(fd, u.header, u.size, u.buffer, chunk);
      }
    }

    // Its contents are filled up.
    method Fill(fd: nat, header: nat, size: nat, data: seq<Byte>, s: seq<Byte>) returns (r: Reply)
      requires Valid() && Waiting(log, fd) == [] && |data| <= size < 0x1_0000
      modifies this, queue, hash
      ensures Valid() && (queue == old(queue) || fresh(queue)) && hash == old(hash)
      ensures log.done == old(log).done && WaitsAfter(old(log), log, fd, Rest([size / 256, size % 256] + data + s))
      ensures Reported(r, old(Contents()), Contents(), fd, [size / 256, size % 256] + data + s)
    {
      hide Agrees, Ring, Packets, Rest, Tagged;
      ghost var head: seq<Byte> := [size / 256, size % 256];
      ghost var all := head + data + s;
      var need := size - |data|;
      if |s| < need {
        NotYet(fd, all);
        assert all == head + (data + s);
        SaveUncomplete(Uncomplete(fd, |data| + |s|, header, size, data + s));
        return Nothing;
      }
      FirstPacket(fd, all);
      Cut(head, data, s, need);
      if |s| == need {
        NotYet(fd, s[need..]);
        return Single(fd, data + s[..need]);
      }
      SomethingLeft(s[need..]);
      PushData(fd, data + s[..need]);
      PushMore(fd, s[need..]);
      return Several;
    }

    // `filter_data_`: a piece of the stream of a descriptor arrives.
    method FilterData(fd: nat, chunk: seq<Byte>) returns (r: Reply)
      requires Valid() && chunk != []
      modifies this, queue, hash
      ensures Valid() && (queue == old(queue) || fresh(queue)) && hash == old(hash)
      ensures SameLog(log, Fed(old(log), fd, chunk))
      ensures Reported(r, old(Contents()), Contents(), fd, Waiting(old(log), fd) + chunk)
    {
      hide Agrees, Ring, Packets, Rest, Tagged, Reported;
      ghost var s := Waiting(log, fd) + chunk;
      ghost var was := log;
      var u := FindUncomplete(fd);
      if u.None? {
        assert s == chunk;
        r := Begin(fd, chunk);
      } else {
        r := Continue(fd, u.value, chunk);
      }
      ghost var now := log.(done := log.done + Tagged(fd, Packets(s)));
      AgreesSame(hash[..], log, now);
      log := now;
    }

    // `close_uncomplete`
    method CloseUncomplete(fd: nat)
      requires Valid()
      modifies hash, this`log
      ensures Valid() && Contents() == old(Contents()) && log == Closed(old(log), fd)
    {
      hide Agrees;
      var u := FindUncomplete(fd);
    }

    // `lpop`
    method Pop() returns (r: Option<Pack>)
      requires Valid()
      modifies this`head
      ensures Valid()
      ensures old(Contents()) == [] ==> r == None && Contents() == []
      ensures old(Contents()) != [] ==> r == Some(old(Contents())[0]) && Contents() == old(Contents())[1..]
    {
      hide Agrees;
      if head == tail { return None; }
      ghost var n := if head <= tail then tail - head else tail + queue.Length - head;
      RingPopped(queue[..], head, n);
      r := Some(queue[head]);
      head := head + 1;
      if head >= queue.Length { head := 0; }
    }
  }
}
