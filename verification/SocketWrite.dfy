// Writing to a socket, socket_server.c.

module SocketWrite {
  // The write side of a TCP socket: two lists of buffers, the packet a caller writes
  // directly, and the requests on the control pipe. The operating system takes as
  // much of each write as it likes.

  type Byte = b: nat | b < 256

  datatype Option<T> = None | Some(value: T)

  // A packet as it was handed to `socket_server_send`, or to
  // `socket_server_send_lowpriority`.
  datatype Packet = Packet(data: seq<Byte>, low: bool)

  // A packet of which `offset` bytes have been written.
  datatype Buffer = Buffer(packet: Packet, offset: nat)

  predicate BufferOk(b: Buffer) { b.offset <= |b.packet.data| }

  predicate Fresh(list: seq<Buffer>) { forall k :: 0 <= k < |list| ==> list[k].offset == 0 }

  function Rest(b: Buffer): seq<Byte>
    requires BufferOk(b)
  {
    b.packet.data[b.offset..]
  }

  function Bytes(packets: seq<Packet>): seq<Byte> {
    if packets == [] then [] else Bytes(packets[..|packets| - 1]) + packets[|packets| - 1].data
  }

  lemma BytesAppend(packets: seq<Packet>, p: Packet)
    ensures Bytes(packets + [p]) == Bytes(packets) + p.data
  {
    assert (packets + [p])[..|packets|] == packets;
  }

  // The packets of one priority, in order.
  function Of(low: bool, packets: seq<Packet>): seq<Packet> {
    if packets == [] then []
    else if packets[0].low == low then [packets[0]] + Of(low, packets[1..])
    else Of(low, packets[1..])
  }

  lemma OfFirst(low: bool, a: seq<Packet>)
    requires a != []
    ensures Of(low, a) == if a[0].low == low then [a[0]] + Of(low, a[1..]) else Of(low, a[1..])
  {
  }

  lemma {:induction false} OfConcat(low: bool, a: seq<Packet>, b: seq<Packet>)
    ensures Of(low, a + b) == Of(low, a) + Of(low, b)
  {
    hide Of;
    Nothing();
    if a == [] {
      assert a + b == b;
    } else {
      OfConcat(low, a[1..], b);
      assert (a + b)[0] == a[0] && (a + b)[1..] == a[1..] + b;
      OfFirst(low, a);
      OfFirst(low, a + b);
      if a[0].low == low { assert [a[0]] + (Of(low, a[1..]) + Of(low, b)) == [a[0]] + Of(low, a[1..]) + Of(low, b); }
    }
  }

  lemma OfOne(low: bool, p: Packet)
    ensures Of(low, [p]) == if p.low == low then [p] else []
  {
    assert [p][1..] == [];
  }

  function Packets(list: seq<Buffer>): (r: seq<Packet>)
    ensures |r| == |list|
  {
    seq(|list|, k requires 0 <= k < |list| => list[k].packet)
  }

  lemma PacketsConcat(a: seq<Buffer>, b: seq<Buffer>)
    ensures Packets(a + b) == Packets(a) + Packets(b)
  {
  }

  // How many bytes are left in a list.
  function Left(list: seq<Buffer>): int {
    if list == [] then 0 else Left(list[..|list| - 1]) + |list[|list| - 1].packet.data| - list[|list| - 1].offset
  }

  lemma LeftAppend(list: seq<Buffer>, b: Buffer)
    ensures Left(list + [b]) == Left(list) + |b.packet.data| - b.offset
  {
    assert (list + [b])[..|list|] == list;
  }

  lemma {:induction false} LeftFirst(list: seq<Buffer>)
    requires list != []
    ensures Left(list) == |list[0].packet.data| - list[0].offset + Left(list[1..])
    decreases |list|
  {
    var n := |list| - 1;
    if n > 0 {
      LeftFirst(list[..n]);
      assert list[..n][1..] == list[1..][..n - 1];
    }
  }

  // The packets that are complete, and then those that wait, are those that
  // were issued, in the order of issue for each priority.
  ghost predicate Ordered(issued: seq<Packet>, done: seq<Packet>, waiting: seq<Packet>) {
    && Of(false, issued) == Of(false, done) + Of(false, waiting)
    && Of(true, issued) == Of(true, done) + Of(true, waiting)
  }

  // The state of the write side. `direct` is the packet of the caller who holds
  // the write lock, `dw` what such a caller could not write; `between` counts
  // the callers in `sending` without a request on the pipe. `wire` is what the
  // peer gets, `done` the packets that are complete in it, and `issued` all
  // packets in the order the callers issued them.
  datatype Side = Side(
    high: seq<Buffer>,
    low: seq<Buffer>,
    wbSize: int,
    dw: Option<Buffer>,
    direct: Option<Packet>,
    sending: nat,
    pipe: seq<Packet>,
    between: nat,
    wire: seq<Byte>,
    done: seq<Packet>,
    issued: seq<Packet>)

  function Front(v: Side): seq<Packet> {
    (if v.dw.Some? then [v.dw.value.packet] else []) + (if v.direct.Some? then [v.direct.value] else [])
  }

  // The packets on their way, in the order they will be written, as long as
  // nobody issues another one.
  function Waiting(v: Side): seq<Packet> {
    Front(v) + (Packets(v.high) + (Packets(v.low) + v.pipe))
  }

  predicate BuffersOk(v: Side) {
    && (v.dw.Some? ==> BufferOk(v.dw.value) && !v.dw.value.packet.low && v.direct.None?)
    && (forall k :: 0 <= k < |v.high| ==> BufferOk(v.high[k]) && (k > 0 ==> v.high[k].offset == 0))
    && (v.dw.Some? || v.direct.Some? ==> Fresh(v.high))
    && Fresh(v.low) && (forall k :: 0 <= k < |v.low| ==> v.low[k].packet.low)
    && (v.direct.Some? ==> !v.direct.value.low)
  }

  // What has been written of the packet that comes next.
  function Begun(v: Side): seq<Byte>
    requires BuffersOk(v)
  {
    if v.dw.Some? then v.dw.value.packet.data[..v.dw.value.offset]
    else if v.high != [] then
      assert BufferOk(v.high[0]);
      v.high[0].packet.data[..v.high[0].offset]
    else []
  }

  // The byte stream consists of whole packets and the beginning of the next
  // one, packets of each priority go out in the order they were issued, and
  // the counters are right.
  ghost predicate Ok(v: Side) {
    && BuffersOk(v)
    && v.wbSize == Left(v.high) + Left(v.low)
    && v.sending == |v.pipe| + v.between
    && v.wire == Bytes(v.done) + Begun(v)
    && Ordered(v.issued, v.done, Waiting(v))
  }

  predicate Empty(v: Side) { v.high == [] && v.low == [] }

  // -------------------------------------------------------------------------
  // What the operations do
  // -------------------------------------------------------------------------

  // A direct write begins, and ends after `n` bytes.
  function DirectBegun(v: Side, data: seq<Byte>): Side {
    v.(direct := Some(Packet(data, false)), issued := v.issued + [Packet(data, false)])
  }

  function DirectEnded(v: Side, n: nat): Side
    requires v.direct.Some? && n <= |v.direct.value.data|
  {
    var p := v.direct.value;
    var w := v.(direct := None, wire := v.wire + p.data[..n]);
    if n == |p.data| then w.(done := v.done + [p]) else w.(dw := Some(Buffer(p, n)))
  }

  // A request goes on the pipe.
  function Requested(v: Side, p: Packet): Side
    requires v.between > 0
  {
    v.(pipe := v.pipe + [p], issued := v.issued + [p], between := v.between - 1)
  }

  // `append_sendbuffer` and `append_sendbuffer_low`
  function AppendedHigh(v: Side): Side
    requires v.pipe != []
  {
    var p := v.pipe[0];
    v.(high := v.high + [Buffer(p, 0)], wbSize := v.wbSize + |p.data|, pipe := v.pipe[1..], between := v.between + 1)
  }

  function AppendedLow(v: Side): Side
    requires v.pipe != []
  {
    var p := v.pipe[0];
    v.(low := v.low + [Buffer(p, 0)], wbSize := v.wbSize + |p.data|, pipe := v.pipe[1..], between := v.between + 1)
  }

  // `n` bytes of the first buffer of the high list are written.
  function WroteHigh(v: Side, n: nat): Side
    requires v.high != [] && BufferOk(v.high[0]) && n <= |Rest(v.high[0])|
  {
    var b := v.high[0];
    var w := v.(wbSize := v.wbSize - n, wire := v.wire + Rest(b)[..n]);
    if n == |Rest(b)| then w.(high := v.high[1..], done := v.done + [b.packet])
    else w.(high := [Buffer(b.packet, b.offset + n)] + v.high[1..])
  }

  // The first buffer of the low list goes to the empty high list.
  function Raised(v: Side): Side
    requires v.low != []
  {
    v.(high := [v.low[0]], low := v.low[1..])
  }

  // What a direct writer left goes in front of the high list.
  function Merged(v: Side): Side
    requires v.dw.Some?
  {
    var b := v.dw.value;
    v.(dw := None, high := [b] + v.high, wbSize := v.wbSize + |b.packet.data| - b.offset)
  }

  lemma DirectBegunOk(v: Side, data: seq<Byte>)
    requires Ok(v) && v.direct.None? && v.dw.None? && Empty(v) && v.sending == 0
    ensures Ok(DirectBegun(v, data))
  {
    hide Ordered, Bytes, Left;
    var p := Packet(data, false);
    var r := DirectBegun(v, data);
    assert Waiting(v) == [];
    Issue(v.issued, v.done, [], p);
    assert Waiting(r) == [] + [p];
  }

  lemma DirectEndedOk(v: Side, n: nat)
    requires Ok(v) && v.direct.Some? && n <= |v.direct.value.data|
    ensures Ok(DirectEnded(v, n))
  {
    hide Ordered, Bytes, Left;
    var p := v.direct.value;
    var r := DirectEnded(v, n);
    assert Begun(v) == [];
    if n == |p.data| {
      assert p.data[..n] == p.data;
      BytesAppend(v.done, p);
      assert Waiting(v) == [p] + Waiting(r);
      Completed(v.issued, v.done, p, Waiting(r));
      assert Begun(r) == [];
    } else {
      assert Waiting(r) == Waiting(v);
    }
  }

  lemma RequestedOk(v: Side, p: Packet)
    requires Ok(v) && v.between > 0
    ensures Ok(Requested(v, p))
  {
    hide Ordered, Bytes, Left, Packets;
    Issue(v.issued, v.done, Waiting(v), p);
    assert Waiting(Requested(v, p)) == Waiting(v) + [p];
  }

  lemma AppendedLowOk(v: Side)
    requires Ok(v) && v.pipe != [] && v.pipe[0].low && !Empty(v)
    ensures Ok(AppendedLow(v))
  {
    hide Ordered, Bytes, Left;
    var r := AppendedLow(v);
    var b := Buffer(v.pipe[0], 0);
    LeftAppend(v.low, b);
    PacketsConcat(v.low, [b]);
    assert Packets([b]) == [b.packet] && v.pipe == [b.packet] + r.pipe;
    assert Packets(r.low) + r.pipe == Packets(v.low) + v.pipe;
  }

  lemma AppendedHighOk(v: Side)
    requires Ok(v) && v.pipe != [] && (v.pipe[0].low ==> Empty(v))
    ensures Ok(AppendedHigh(v))
  {
    hide Ordered, Bytes, Left;
    var r := AppendedHigh(v);
    var b := Buffer(v.pipe[0], 0);
    LeftAppend(v.high, b);
    PacketsConcat(v.high, [b]);
    assert Packets([b]) == [b.packet] && v.pipe == [b.packet] + r.pipe;
    LowPackets(v.low);
    Overtaking(v, r, Front(v), Packets(v.high), Packets(v.low), b.packet);
    assert Begun(r) == Begun(v);
  }

  lemma Overtaking(v: Side, r: Side, f: seq<Packet>, h: seq<Packet>, l: seq<Packet>, p: Packet)
    requires Ordered(v.issued, v.done, f + (h + (l + ([p] + r.pipe))))
    requires Of(false, l) == [] && (p.low ==> l == [])
    ensures Ordered(v.issued, v.done, f + ((h + [p]) + (l + r.pipe)))
  {
    hide Ordered, Of;
    assert f + (h + (l + ([p] + r.pipe))) == (f + h) + l + [p] + r.pipe;
    Overtake(v.issued, v.done, f + h, l, p, r.pipe);
    assert f + ((h + [p]) + (l + r.pipe)) == (f + h) + [p] + l + r.pipe;
  }

  // The first buffer and the others.
  lemma FirstPackets(b: Buffer, rest: seq<Buffer>)
    ensures Packets([b] + rest) == [b.packet] + Packets(rest)
    ensures Left([b] + rest) == |b.packet.data| - b.offset + Left(rest)
  {
    LeftFirst([b] + rest);
    assert ([b] + rest)[1..] == rest;
  }

  lemma WroteHighOk(v: Side, n: nat)
    requires Ok(v) && v.dw.None? && v.direct.None? && v.high != [] && BufferOk(v.high[0]) && n <= |Rest(v.high[0])|
    ensures Ok(WroteHigh(v, n))
  {
    hide Ordered, Bytes, Left, Packets;
    var r := WroteHigh(v, n);
    var b, rest := v.high[0], v.high[1..];
    assert v.high == [b] + rest;
    FirstPackets(b, rest);
    assert b.packet.data[..b.offset] + Rest(b)[..n] == b.packet.data[..b.offset + n];
    assert Bytes(v.done) + b.packet.data[..b.offset] + Rest(b)[..n] == Bytes(v.done) + b.packet.data[..b.offset + n];
    if n == |Rest(b)| {
      assert b.packet.data[..b.offset + n] == b.packet.data;
      FirstDone(v, r, b, rest);
    } else {
      FirstPackets(Buffer(b.packet, b.offset + n), rest);
      assert Waiting(r) == Waiting(v);
    }
  }

  lemma FirstDone(v: Side, r: Side, b: Buffer, rest: seq<Buffer>)
    requires Ordered(v.issued, v.done, Front(v) + (([b.packet] + Packets(rest)) + (Packets(v.low) + v.pipe)))
    requires Front(v) == [] && r.high == rest && r == v.(high := rest, wbSize := r.wbSize, wire := r.wire, done := r.done)
    requires r.done == v.done + [b.packet] && r.wire == Bytes(v.done) + b.packet.data && BuffersOk(r) && Fresh(rest)
    ensures Ordered(r.issued, r.done, Waiting(r)) && r.wire == Bytes(r.done) + Begun(r)
  {
    hide Ordered, Bytes, Packets;
    BytesAppend(v.done, b.packet);
    assert Front(v) + (([b.packet] + Packets(rest)) + (Packets(v.low) + v.pipe)) == [b.packet] + Waiting(r);
    Completed(v.issued, v.done, b.packet, Waiting(r));
    assert Begun(r) == [];
  }

  lemma RaisedOk(v: Side)
    requires Ok(v) && v.high == [] && v.low != [] && v.dw.None? && v.direct.None?
    ensures Ok(Raised(v))
  {
    hide Ordered, Bytes, Left;
    var r := Raised(v);
    var b, rest := v.low[0], v.low[1..];
    LeftFirst(v.low);
    LeftFirst(r.high);
    assert r.high[1..] == [];
    LeftNothing();
    PacketsConcat([b], rest);
    assert v.low == [b] + rest && Packets(v.high) == [];
    assert Packets(r.high) + (Packets(r.low) + v.pipe) == Packets(v.high) + (Packets(v.low) + v.pipe);
  }

  lemma LeftNothing()
    ensures Left([]) == 0
  {
  }

  lemma MergedOk(v: Side)
    requires Ok(v) && v.dw.Some?
    ensures Ok(Merged(v))
  {
    hide Ordered, Bytes, Left, Packets;
    var r := Merged(v);
    FirstPackets(v.dw.value, v.high);
    assert Waiting(r) == Waiting(v);
  }

  // -------------------------------------------------------------------------
  // The socket
  // -------------------------------------------------------------------------

  class Socket {
    var high: seq<Buffer>
    var low: seq<Buffer>
    var wbSize: int
    var dw: Option<Buffer>
    var direct: Option<Packet>
    var sending: nat
    var pipe: seq<Packet>
    ghost var between: nat
    ghost var wire: seq<Byte>
    ghost var done: seq<Packet>
    ghost var issued: seq<Packet>
    ghost var refused: nat   // how many writes the system has not taken whole

    ghost function View(): Side
      reads this
    {
      Side(high, low, wbSize, dw, direct, sending, pipe, between, wire, done, issued)
    }

    ghost predicate Valid()
      reads this
    {
      Ok(View())
    }

    constructor ()
      ensures Valid() && View() == Side([], [], 0, None, None, 0, [], 0, [], [], [])
    {
      hide Ok;
      high, low, wbSize, dw, direct, sending, pipe := [], [], 0, None, None, 0, [];
      between, wire, done, issued, refused := 0, [], [], [], 0;
      StartOk();
    }

    // One write to the file descriptor: the system takes some of the bytes, or
    // fails for now.
    method Write(data: seq<Byte>) returns (n: int)
      modifies this`wire, this`refused
      ensures -1 <= n <= |data|
      ensures wire == old(wire) + data[..if n < 0 then 0 else n]
      ensures refused == old(refused) + if n < |data| then 1 else 0
    {
      n :| -1 <= n <= |data|;
      if n < |data| { refused := refused + 1; }
      wire := wire + data[..if n < 0 then 0 else n];
    }

    // The first half of a direct write in `socket_server_send`: with the write
    // lock, when nothing else is to be written.
    method BeginDirect(data: seq<Byte>) returns (ok: bool)
      requires Valid()
      modifies this`direct, this`issued
      ensures Valid()
      ensures ok == (old(direct).None? && Empty(old(View())) && dw.None? && sending == 0)
      ensures View() == if ok then DirectBegun(old(View()), data) else old(View())
    {
      hide Ok;
      ok := direct.None? && high == [] && low == [] && dw.None? && sending == 0;
      if ok {
        DirectBegunOk(View(), data);
        direct := Some(Packet(data, false));
        issued := issued + [Packet(data, false)];
      }
    }

    // The second half: one write, and what is left is kept for the socket
    // thread. A failed write counts as none.
    method FinishDirect() returns (ghost n: nat)
      requires Valid() && direct.Some?
      modifies this`direct, this`dw, this`wire, this`done, this`refused
      ensures refused == old(refused) ==> n == |old(direct).value.data|
      ensures Valid() && n <= |old(direct).value.data| && View() == DirectEnded(old(View()), n)
    {
      hide Ok;
      var p := direct.value;
      var m := Write(p.data);
      if m < 0 { m := 0; }
      DirectEndedOk(old(View()), m);
      direct := None;
      if m == |p.data| { done := done + [p]; } else { dw := Some(Buffer(p, m)); }
      n := m;
    }

    // `inc_sending_ref`
    method Reserve()
      requires Valid()
      modifies this`sending, this`between
      ensures Valid() && View() == old(View()).(sending := sending, between := between) && between == old(between) + 1
    {
      sending := sending + 1;
      between := between + 1;
    }

    // The request of a caller that has reserved goes on the pipe.
    method Request(data: seq<Byte>, isLow: bool)
      requires Valid() && between > 0
      modifies this`pipe, this`issued, this`between
      ensures Valid() && View() == Requested(old(View()), Packet(data, isLow))
    {
      hide Ok;
      RequestedOk(View(), Packet(data, isLow));
      pipe := pipe + [Packet(data, isLow)];
      issued := issued + [Packet(data, isLow)];
      between := between - 1;
    }

    // `send_socket`: a packet goes to one of the lists; to the high one if both
    // are empty, whatever its priority.
    method Deliver()
      requires Valid() && pipe != []
      modifies this`pipe, this`high, this`low, this`wbSize, this`between
      ensures Valid()
      ensures var v := old(View());
              View() == if !Empty(v) && v.pipe[0].low then AppendedLow(v) else AppendedHigh(v)
    {
      hide Ok;
      var p := pipe[0];
      if !(high == [] && low == []) && p.low {
        AppendedLowOk(View());
        low := low + [Buffer(p, 0)];
      } else {
        AppendedHighOk(View());
        high := high + [Buffer(p, 0)];
      }
      wbSize := wbSize + |p.data|;
      pipe := pipe[1..];
      between := between + 1;
    }

    // `dec_sending_ref`, after it.
    method Delivered()
      requires Valid() && between > 0
      modifies this`sending, this`between
      ensures Valid() && View() == old(View()).(sending := sending, between := between) && between == old(between) - 1
    {
      sending := sending - 1;
      between := between - 1;
    }

    // `send_list_tcp` on the high list.
    method SendHigh()
      requires Valid() && dw.None? && direct.None?
      modifies this`high, this`wbSize, this`wire, this`done, this`refused
      ensures Valid() && dw.None? && direct.None? && low == old(low)
      ensures done + Waiting(View()) == old(done) + Waiting(old(View()))
      ensures refused == old(refused) + if high == [] then 0 else 1
    {
      hide Ok, Waiting;
      var over := false;
      while high != [] && !over
        invariant Valid() && dw.None? && direct.None? && low == old(low)
        invariant refused == old(refused) + (if over then 1 else 0) && (over ==> high != [])
        invariant done + Waiting(View()) == old(done) + Waiting(old(View()))
        decreases |high|, !over
      {
        over := SendFirst();
      }
    }

    // One buffer of it; `over` when the system has not taken all.
    method SendFirst() returns (over: bool)
      requires Valid() && high != [] && dw.None? && direct.None?
      modifies this`high, this`wbSize, this`wire, this`done, this`refused
      ensures refused == old(refused) + if over then 1 else 0
      ensures Valid() && done + Waiting(View()) == old(done) + Waiting(old(View()))
      ensures |high| == if over then |old(high)| else |old(high)| - 1
    {
      hide Ok, Waiting;
      var b := high[0];
      FirstOk(View());
      var n := Write(Rest(b));
      if n < 0 {
        assert View() == old(View());
        return true;
      }
      WroteHighOk(old(View()), n);
      WroteInOrder(old(View()), n);
      wbSize := wbSize - n;
      if n != |Rest(b)| {
        high := [Buffer(b.packet, b.offset + n)] + high[1..];
        assert View() == WroteHigh(old(View()), n);
        return true;
      }
      over := false;
      high := high[1..];
      done := done + [b.packet];
      assert View() == WroteHigh(old(View()), n);
    }

    // `send_list_tcp` on the low list, and `raise_uncomplete`.
    method SendLow()
      requires Valid() && dw.None? && direct.None? && high == []
      modifies this`high, this`low, this`wbSize, this`wire, this`done, this`refused
      ensures Valid() && dw.None? && direct.None?
      ensures done + Waiting(View()) == old(done) + Waiting(old(View()))
      ensures refused == old(refused) + if Empty(View()) then 0 else 1
    {
      hide Ok, Waiting;
      while low != []
        invariant Valid() && dw.None? && direct.None? && high == [] && refused == old(refused)
        invariant done + Waiting(View()) == old(done) + Waiting(old(View()))
        decreases |low|
      {
        ghost var v := View();
        var b := low[0];
        RaisedOk(v);
        RaisedInOrder(v);
        FirstOk(Raised(v));
        LowFresh(v);
        var n := Write(Rest(b));
        if n < 0 {
          assert View() == v;
          return;
        }
        WroteHighOk(Raised(v), n);
        WroteInOrder(Raised(v), n);
        wbSize := wbSize - n;
        if n != |Rest(b)| {
          low := [Buffer(b.packet, b.offset + n)] + low[1..];
          if low[0].offset != 0 {
            RaiseUncomplete();
            assert View() == WroteHigh(Raised(v), n);
          } else {
            assert low == v.low;
            assert View() == v;
          }
          return;
        }
        low := low[1..];
        done := done + [b.packet];
        assert View() == WroteHigh(Raised(v), n);
      }
    }

    // `raise_uncomplete`
    method RaiseUncomplete()
      requires low != [] && high == []
      modifies this`high, this`low
      ensures high == [old(low)[0]] && low == old(low)[1..]
    {
      var b := low[0];
      low := low[1..];
      high := [b];
    }

    // `send_buffer`: nothing is done while a caller holds the write lock. The
    // packets that wait go out in order, until the system does not take all of a
    // write.
    method SendBuffer() returns (empty: bool)
      requires Valid()
      modifies this`high, this`low, this`dw, this`wbSize, this`wire, this`done, this`refused
      ensures Valid()
      ensures done + Waiting(View()) == old(done) + Waiting(old(View()))
      ensures old(direct).Some? ==> View() == old(View()) && refused == old(refused) && !empty
      ensures old(direct).None? ==> dw.None? && refused == old(refused) + if empty then 0 else 1
      ensures empty ==> Empty(View()) && wbSize == 0
    {
      hide Ok, Waiting;
      if direct.Some? { return false; }
      if dw.Some? {
        MergedOk(View());
        MergedInOrder(View());
        var b := dw.value;
        wbSize := wbSize + |b.packet.data| - b.offset;
        high := [b] + high;
        dw := None;
        assert View() == Merged(old(View()));
      }
      SendHigh();
      if high == [] { SendLow(); }
      empty := high == [] && low == [];
      if empty { NothingLeft(View()); }
    }
  }

  lemma WroteInOrder(v: Side, n: nat)
    requires Ok(v) && v.dw.None? && v.direct.None? && v.high != [] && BufferOk(v.high[0]) && n <= |Rest(v.high[0])|
    ensures WroteHigh(v, n).done + Waiting(WroteHigh(v, n)) == v.done + Waiting(v)
  {
    hide Ok;
    var r := WroteHigh(v, n);
    var b, rest := v.high[0], v.high[1..];
    PacketsConcat([b], rest);
    PacketsConcat([Buffer(b.packet, b.offset + n)], rest);
    assert v.high == [b] + rest && Packets([b]) == [b.packet];
    assert Packets([Buffer(b.packet, b.offset + n)]) == [b.packet];
  }

  lemma RaisedInOrder(v: Side)
    requires v.low != [] && v.high == []
    ensures Waiting(Raised(v)) == Waiting(v)
  {
    var b, rest := v.low[0], v.low[1..];
    PacketsConcat([b], rest);
    assert v.low == [b] + rest && Packets(v.high) == [];
    assert Packets([b]) + (Packets(rest) + v.pipe) == Packets(v.high) + (Packets(v.low) + v.pipe);
  }

  lemma MergedInOrder(v: Side)
    requires Ok(v) && v.dw.Some?
    ensures Waiting(Merged(v)) == Waiting(v)
  {
    hide Ordered, Bytes, Left, Packets;
    var b := v.dw.value;
    FirstPackets(b, v.high);
  }

  lemma LowFresh(v: Side)
    requires Ok(v) && v.low != []
    ensures v.low[0].offset == 0 && v.low[0] == Buffer(v.low[0].packet, 0)
  {
  }

  lemma NothingLeft(v: Side)
    requires Ok(v) && Empty(v)
    ensures v.wbSize == 0
  {
  }

  // -------------------------------------------------------------------------
  // Runs
  // -------------------------------------------------------------------------

  // What callers and the socket thread may do next, with the number of bytes
  // the system takes.
  datatype Op =
    | OpDirect(data: seq<Byte>)
    | OpDirectEnds(n: nat)
    | OpReserve
    | OpRequest(packet: Packet)
    | OpDeliver
    | OpDelivered
    | OpMerge
    | OpWrite(n: nat)

  // An operation that is not possible now changes nothing.
  function Step(v: Side, op: Op): Side {
    match op
    case OpDirect(data) =>
      if v.direct.None? && v.dw.None? && Empty(v) && v.sending == 0 then DirectBegun(v, data) else v
    case OpDirectEnds(n) =>
      if v.direct.Some? && n <= |v.direct.value.data| then DirectEnded(v, n) else v
    case OpReserve => v.(sending := v.sending + 1, between := v.between + 1)
    case OpRequest(packet) => if v.between > 0 then Requested(v, packet) else v
    case OpDeliver =>
      if v.pipe == [] then v
      else if !Empty(v) && v.pipe[0].low then AppendedLow(v) else AppendedHigh(v)
    case OpDelivered =>
      if v.between > 0 && v.sending > 0 then v.(sending := v.sending - 1, between := v.between - 1) else v
    case OpMerge => if v.dw.Some? then Merged(v) else v
    case OpWrite(n) =>
      if v.dw.Some? || v.direct.Some? then v
      else if v.high != [] then
        if BufferOk(v.high[0]) && n <= |Rest(v.high[0])| then WroteHigh(v, n) else v
      else if Begins(v, n) then WroteHigh(Raised(v), n)
      else v
  }

  // The system takes `n` bytes of the first low buffer, or all if it has none.
  predicate Begins(v: Side, n: nat) {
    v.low != [] && BufferOk(v.low[0]) && n <= |Rest(v.low[0])| && (n > 0 || Rest(v.low[0]) == [])
  }

  function Run(v: Side, ops: seq<Op>): Side {
    if ops == [] then v else Step(Run(v, ops[..|ops| - 1]), ops[|ops| - 1])
  }

  const START := Side([], [], 0, None, None, 0, [], 0, [], [], [])

  lemma StepOk(v: Side, op: Op)
    requires Ok(v)
    ensures Ok(Step(v, op))
  {
    hide Ok;
    match op
    case OpDirect(data) =>
      if v.direct.None? && v.dw.None? && Empty(v) && v.sending == 0 { DirectBegunOk(v, data); }
    case OpDirectEnds(n) =>
      if v.direct.Some? && n <= |v.direct.value.data| { DirectEndedOk(v, n); }
    case OpRequest(packet) => if v.between > 0 { RequestedOk(v, packet); }
    case OpDeliver =>
      if v.pipe != [] {
        if !Empty(v) && v.pipe[0].low { AppendedLowOk(v); } else { AppendedHighOk(v); }
      }
    case OpMerge => if v.dw.Some? { MergedOk(v); }
    case OpWrite(n) =>
      if v.dw.None? && v.direct.None? {
        if v.high != [] {
          if BufferOk(v.high[0]) && n <= |Rest(v.high[0])| { WroteHighOk(v, n); }
        } else if Begins(v, n) {
          RaisedOk(v);
          WroteHighOk(Raised(v), n);
        }
      }
    case OpReserve => CountsOk(v, v.sending + 1, v.between + 1);
    case OpDelivered =>
      if v.between > 0 && v.sending > 0 { CountsOk(v, v.sending - 1, v.between - 1); }
  }

  lemma CountsOk(v: Side, sending: nat, between: nat)
    requires Ok(v) && sending - between == v.sending - v.between
    ensures Ok(v.(sending := sending, between := between))
  {
  }

  lemma StartOk()
    ensures Ok(START)
  {
    assert Waiting(START) == [];
  }

  lemma {:induction false} RunFromOk(v: Side, ops: seq<Op>)
    requires Ok(v)
    ensures Ok(Run(v, ops))
    decreases |ops|
  {
    hide Step, Ok;
    if ops != [] {
      RunFromOk(v, ops[..|ops| - 1]);
      StepOk(Run(v, ops[..|ops| - 1]), ops[|ops| - 1]);
    }
  }

  lemma RunOk(ops: seq<Op>)
    ensures Ok(Run(START, ops))
  {
    StartOk();
    RunFromOk(START, ops);
  }

  // -------------------------------------------------------------------------
  // What it means
  // -------------------------------------------------------------------------

  // Nothing that is in the stream, is complete or was issued is taken back.
  ghost predicate Grown(v: Side, r: Side) { v.wire <= r.wire && v.done <= r.done && v.issued <= r.issued }

  lemma {:induction false} OnlyGrows(v: Side, ops: seq<Op>)
    ensures Grown(v, Run(v, ops))
    decreases |ops|
  {
    hide Step;
    if ops != [] {
      OnlyGrows(v, ops[..|ops| - 1]);
      StepGrows(Run(v, ops[..|ops| - 1]), ops[|ops| - 1]);
    }
  }

  lemma StepGrows(v: Side, op: Op)
    ensures Grown(v, Step(v, op))
  {
  }

  // The packet `p`, of which `begun` is written, is the next one that gets complete:
  // it still comes first, or it follows directly after those that were complete.
  ghost predicate ComesNext(done: seq<Packet>, p: Packet, begun: seq<Byte>, r: Side) {
    if r.done == done then BuffersOk(r) && Waiting(r) != [] && Waiting(r)[0] == p && begun <= Begun(r)
    else done + [p] <= r.done
  }

  lemma BegunFirst(v: Side)
    requires Ok(v) && Begun(v) != []
    ensures Waiting(v) != [] && Begun(v) <= Waiting(v)[0].data && ComesNext(v.done, Waiting(v)[0], Begun(v), v)
  {
    hide Ordered, Bytes, Left;
  }

  lemma WriteBegun(v: Side, n: nat)
    requires Ok(v) && Begun(v) != [] && v.dw.None? && v.high != [] && BufferOk(v.high[0]) && n <= |Rest(v.high[0])|
    requires Waiting(v) != []
    ensures ComesNext(v.done, Waiting(v)[0], Begun(v), WroteHigh(v, n))
  {
    hide Ordered, Bytes, Left;
    var b := v.high[0];
    WroteHighOk(v, n);
    assert b.packet.data[..b.offset] <= b.packet.data[..b.offset + n];
  }

  lemma DeliverBegun(v: Side)
    requires Ok(v) && Begun(v) != [] && Waiting(v) != []
    ensures ComesNext(v.done, Waiting(v)[0], Begun(v), Step(v, OpDeliver))
  {
    hide Ordered, Bytes, Left;
    StepOk(v, OpDeliver);
    BegunFirst(v);
  }

  lemma StepBegun(v: Side, op: Op)
    requires Ok(v) && Begun(v) != [] && Waiting(v) != []
    ensures ComesNext(v.done, Waiting(v)[0], Begun(v), Step(v, op))
  {
    hide Ordered, Bytes, Left;
    StepOk(v, op);
    BegunFirst(v);
    if op.OpDeliver? {
      DeliverBegun(v);
    } else if op.OpWrite? {
      if v.dw.None? && v.high != [] && BufferOk(v.high[0]) && op.n <= |Rest(v.high[0])| { WriteBegun(v, op.n); }
    }
  }

  // A packet that has been begun is the next one to get complete, whatever is
  // issued, delivered or written meanwhile.
  lemma {:induction false} BegunIsNext(v: Side, ops: seq<Op>)
    requires Ok(v) && Begun(v) != []
    ensures Waiting(v) != [] && Begun(v) <= Waiting(v)[0].data
    ensures ComesNext(v.done, Waiting(v)[0], Begun(v), Run(v, ops))
    decreases |ops|
  {
    hide Step, Ok, Waiting;
    BegunFirst(v);
    if ops != [] {
      var n := |ops| - 1;
      BegunIsNext(v, ops[..n]);
      RunFromOk(v, ops[..n]);
      var w := Run(v, ops[..n]);
      if w.done == v.done { StepBegun(w, ops[n]); }
      StepGrows(w, ops[n]);
    }
  }

  // -------------------------------------------------------------------------
  // Who goes before whom
  // -------------------------------------------------------------------------

  // All packets, complete or on their way, in the order of the stream as it is
  // settled now.
  function Line(v: Side): seq<Packet> { v.done + Waiting(v) }

  // The packets that are not in the low list, nor on the pipe.
  function Settled(v: Side): seq<Packet> { v.done + Front(v) + Packets(v.high) }

  // The low packets among them; the first of the low list has this number.
  function Lead(v: Side): nat { |Of(true, Settled(v))| }

  // How many high packets come before low packet number `m`.
  function Ahead(line: seq<Packet>, m: nat): nat {
    if line == [] then 0
    else if !line[0].low then 1 + Ahead(line[1..], m)
    else if m == 0 then 0
    else Ahead(line[1..], m - 1)
  }

  lemma {:induction false} AheadConcat(a: seq<Packet>, b: seq<Packet>, m: nat)
    ensures m < |Of(true, a)| ==> Ahead(a + b, m) == Ahead(a, m)
    ensures m >= |Of(true, a)| ==> Ahead(a + b, m) == |Of(false, a)| + Ahead(b, m - |Of(true, a)|)
  {
    if a == [] {
      assert a + b == b;
    } else {
      assert (a + b)[1..] == a[1..] + b;
      if !a[0].low {
        AheadConcat(a[1..], b, m);
      } else if m > 0 {
        AheadConcat(a[1..], b, m - 1);
      }
    }
  }

  // An operation takes the first packet of the pipe to the high list.
  predicate Settles(v: Side, op: Op) { op.OpDeliver? && v.pipe != [] && (Empty(v) || !v.pipe[0].low) }

  lemma LineIs(v: Side)
    ensures Line(v) == Settled(v) + (Packets(v.low) + v.pipe)
    ensures v.pipe != [] ==> Line(v) == Settled(v) + Packets(v.low) + [v.pipe[0]] + v.pipe[1..]
  {
    hide Packets;
    if v.pipe != [] { assert v.pipe == [v.pipe[0]] + v.pipe[1..]; }
  }

  lemma SettledLine(v: Side, op: Op)
    requires Settles(v, op)
    ensures Line(Step(v, op)) == Settled(v) + [v.pipe[0]] + Packets(v.low) + v.pipe[1..]
    ensures Settled(Step(v, op)) == Settled(v) + [v.pipe[0]]
  {
    hide Packets, Waiting, Settled;
    var r := Step(v, op);
    assert r == AppendedHigh(v) && r.low == v.low && r.pipe == v.pipe[1..];
    OneMoreSettled(v);
    LineIs(r);
    assert Settled(r) + (Packets(r.low) + r.pipe) == Settled(r) + Packets(r.low) + r.pipe;
  }

  lemma OneMoreSettled(v: Side)
    requires v.pipe != []
    ensures Settled(AppendedHigh(v)) == Settled(v) + [v.pipe[0]]
  {
    hide Packets;
    var b := Buffer(v.pipe[0], 0);
    PacketsConcat(v.high, [b]);
    OnePacket(b);
  }

  lemma OnePacket(b: Buffer)
    ensures Packets([b]) == [b.packet]
  {
  }

  // Every other operation leaves the line as it is, but for new packets at its end.
  lemma StepLine(v: Side, op: Op)
    requires Ok(v) && !Settles(v, op)
    ensures Line(v) <= Line(Step(v, op))
  {
    hide Ok, Packets;
    match op
    case OpDirect(data) => DirectLine(v, op);
    case OpDirectEnds(n) => DirectLine(v, op);
    case OpRequest(packet) =>
      if v.between > 0 { assert Line(Requested(v, packet)) == Line(v) + [packet]; }
    case OpDeliver => if v.pipe != [] { LowLine(v); }
    case OpMerge => if v.dw.Some? { MergedInOrder(v); }
    case OpWrite(n) => WriteLine(v, n);
    case OpReserve => assert Waiting(Step(v, op)) == Waiting(v);
    case OpDelivered => assert Waiting(Step(v, op)) == Waiting(v);
  }

  lemma LowLine(v: Side)
    requires v.pipe != []
    ensures Line(AppendedLow(v)) == Line(v)
  {
    hide Packets, Waiting;
    var b := Buffer(v.pipe[0], 0);
    PacketsConcat(v.low, [b]);
    OnePacket(b);
    LineIs(v);
    LineIs(AppendedLow(v));
    assert Settled(v) + Packets(v.low) + [v.pipe[0]] + v.pipe[1..] == Settled(v) + ((Packets(v.low) + [v.pipe[0]]) + v.pipe[1..]);
  }

  lemma DirectLine(v: Side, op: Op)
    requires Ok(v) && (op.OpDirect? || op.OpDirectEnds?)
    ensures Line(v) <= Line(Step(v, op))
  {
    hide Ordered, Bytes, Left;
    var r := Step(v, op);
    if op.OpDirect? && r != v {
      assert Packets(v.high) == [] && Packets(v.low) == [] && v.pipe == [];
      assert Line(r) == Line(v) + [r.direct.value];
    } else if r != v {
      assert Line(r) == Line(v);
    }
  }

  lemma WriteLine(v: Side, n: nat)
    requires Ok(v)
    ensures Line(Step(v, OpWrite(n))) == Line(v)
  {
    hide Ok, Waiting;
    if v.dw.None? && v.direct.None? {
      if v.high != [] {
        if BufferOk(v.high[0]) && n <= |Rest(v.high[0])| { WroteInOrder(v, n); }
      } else if Begins(v, n) {
        RaisedOk(v);
        RaisedInOrder(v);
        WroteInOrder(Raised(v), n);
      }
    }
  }

  // A high packet that is delivered overtakes the packets in the low list, and only
  // those, and nothing else overtakes anything.
  lemma StepAhead(v: Side, op: Op, m: nat)
    requires Ok(v) && m < |Of(true, Line(v))|
    ensures m < |Of(true, Line(Step(v, op)))|
    ensures Ahead(Line(Step(v, op)), m) == Ahead(Line(v), m) +
            if Settles(v, op) && !v.pipe[0].low && Lead(v) <= m < Lead(v) + |v.low| then 1 else 0
  {
    hide Ok, Of, Step, Waiting, Packets, Front, Ahead;
    var r := Step(v, op);
    if Settles(v, op) {
      SettledLine(v, op);
      LineIs(v);
      LowOnly(v);
      AheadMoved(Settled(v), Packets(v.low), v.pipe[0], v.pipe[1..], m);
    } else {
      StepLine(v, op);
      var more := Line(r)[|Line(v)|..];
      assert Line(r) == Line(v) + more;
      AheadConcat(Line(v), more, m);
      OfConcat(true, Line(v), more);
    }
  }

  lemma LowOnly(v: Side)
    requires Ok(v)
    ensures Of(false, Packets(v.low)) == [] && |Of(true, Packets(v.low))| == |v.low|
  {
    hide Ordered, Bytes, Left, Of;
    LowPackets(v.low);
    OfBoth(Packets(v.low));
  }

  lemma {:induction false} OfBoth(a: seq<Packet>)
    ensures |Of(false, a)| + |Of(true, a)| == |a|
  {
    if a != [] { OfBoth(a[1..]); }
  }

  lemma AheadMoved(a: seq<Packet>, l: seq<Packet>, p: Packet, y: seq<Packet>, m: nat)
    requires Of(false, l) == [] && |Of(true, l)| == |l| && (p.low ==> l == [])
    requires m < |Of(true, a + l + [p] + y)|
    ensures m < |Of(true, a + [p] + l + y)|
    ensures Ahead(a + [p] + l + y, m) == Ahead(a + l + [p] + y, m) +
            if !p.low && |Of(true, a)| <= m < |Of(true, a)| + |l| then 1 else 0
  {
    hide Of, Ahead;
    if l == [] {
      assert a + [p] + l + y == a + l + [p] + y;
    } else {
      OfOne(true, p);
      OfOne(false, p);
      AheadOfThree(a, [p], l, y, m);
      AheadOfThree(a, l, [p], y, m);
      if |Of(true, a)| <= m < |Of(true, a)| + |l| { AheadLow(l, m - |Of(true, a)|); }
    }
  }

  // What comes before low packet `m` in a line of four parts.
  lemma AheadOfThree(a: seq<Packet>, b: seq<Packet>, c: seq<Packet>, d: seq<Packet>, m: nat)
    ensures |Of(true, a + b + c + d)| == |Of(true, a)| + |Of(true, b)| + |Of(true, c)| + |Of(true, d)|
    ensures var n, x, y, z := m, |Of(true, a)|, |Of(true, b)|, |Of(true, c)|;
            Ahead(a + b + c + d, m) ==
            if m < x then Ahead(a, m)
            else if m < x + y then |Of(false, a)| + Ahead(b, m - x)
            else if m < x + y + z then |Of(false, a)| + |Of(false, b)| + Ahead(c, m - x - y)
            else |Of(false, a)| + |Of(false, b)| + |Of(false, c)| + Ahead(d, m - x - y - z)
  {
    hide Of, Ahead;
    assert a + b + c + d == a + (b + (c + d));
    OfConcat(true, a, b + (c + d));
    OfConcat(true, b, c + d);
    OfConcat(true, c, d);
    AheadConcat(a, b + (c + d), m);
    if m >= |Of(true, a)| {
      var k := m - |Of(true, a)|;
      AheadConcat(b, c + d, k);
      if k >= |Of(true, b)| { AheadConcat(c, d, k - |Of(true, b)|); }
    }
  }

  lemma {:induction false} AheadLow(l: seq<Packet>, m: int)
    requires |Of(true, l)| == |l| && 0 <= m < |l|
    ensures Ahead(l, m) == 0
  {
    OfBoth(l);
    OfBoth(l[1..]);
    if m > 0 { AheadLow(l[1..], m - 1); }
  }

  // Nobody is overtaken twice by the same packet, and nobody falls behind.
  lemma {:induction false} AheadGrows(v: Side, ops: seq<Op>, m: nat)
    requires Ok(v) && m < |Of(true, Line(v))|
    ensures m < |Of(true, Line(Run(v, ops)))| && Ahead(Line(Run(v, ops)), m) >= Ahead(Line(v), m)
    decreases |ops|
  {
    hide Ok, Of, Step, Line, Ahead;
    if ops != [] {
      var n := |ops| - 1;
      AheadGrows(v, ops[..n], m);
      RunFromOk(v, ops[..n]);
      StepAhead(Run(v, ops[..n]), ops[n], m);
    }
  }

  // How many low packets are settled, and how many are in the low list.
  lemma StepLead(v: Side, op: Op)
    requires Ok(v)
    ensures var r := Step(v, op);
            if op.OpWrite? && v.dw.None? && v.direct.None? && v.high == [] && Begins(v, op.n) then
              Lead(r) == Lead(v) + 1 && |r.low| + 1 == |v.low|
            else if Settles(v, op) && v.pipe[0].low then Lead(r) == Lead(v) + 1 && |r.low| == |v.low| == 0
            else Lead(r) == Lead(v) && |r.low| >= |v.low|
  {
    hide Ok, Of, Packets, Ordered, Bytes, Left;
    var r := Step(v, op);
    match op
    case OpDirect(_) => DirectLead(v, op);
    case OpDirectEnds(_) => DirectLead(v, op);
    case OpDeliver =>
      if Settles(v, op) {
        SettledLine(v, op);
        OfConcat(true, Settled(v), [v.pipe[0]]);
        OfOne(true, v.pipe[0]);
      }
    case OpMerge => if v.dw.Some? { MergedLead(v); }
    case OpWrite(n) =>
      if v.dw.None? && v.direct.None? {
        if v.high != [] && BufferOk(v.high[0]) && n <= |Rest(v.high[0])| {
          WroteLead(v, n);
        } else if v.high == [] && Begins(v, n) {
          RaisedLead(v);
          WroteLead(Raised(v), n);
        }
      }
    case _ => assert Settled(r) == Settled(v);
  }

  lemma DirectLead(v: Side, op: Op)
    requires Ok(v) && (op.OpDirect? || op.OpDirectEnds?)
    ensures Lead(Step(v, op)) == Lead(v) && Step(v, op).low == v.low
  {
    hide Ordered, Bytes, Left, Of;
    var r := Step(v, op);
    if op.OpDirect? && r != v {
      assert Settled(r) == Settled(v) + [r.direct.value];
      OfConcat(true, Settled(v), [r.direct.value]);
      OfOne(true, r.direct.value);
    } else if r != v {
      assert Settled(r) == Settled(v);
    }
  }

  lemma MergedLead(v: Side)
    requires Ok(v) && v.dw.Some?
    ensures Lead(Merged(v)) == Lead(v)
  {
    hide Ordered, Bytes, Left, Of, Packets;
    FirstPackets(v.dw.value, v.high);
    assert Settled(Merged(v)) == Settled(v);
  }

  lemma WroteLead(v: Side, n: nat)
    requires v.high != [] && BufferOk(v.high[0]) && n <= |Rest(v.high[0])| && v.dw.None? && v.direct.None?
    ensures Lead(WroteHigh(v, n)) == Lead(v) && WroteHigh(v, n).low == v.low
  {
    hide Of, Packets;
    var b, rest := v.high[0], v.high[1..];
    assert v.high == [b] + rest;
    FirstPackets(b, rest);
    FirstPackets(Buffer(b.packet, b.offset + n), rest);
    assert Settled(WroteHigh(v, n)) == Settled(v);
  }

  lemma RaisedLead(v: Side)
    requires Ok(v) && v.low != [] && v.high == []
    ensures Lead(Raised(v)) == Lead(v) + 1 && |Raised(v).low| + 1 == |v.low|
  {
    hide Ordered, Bytes, Left, Of, Packets;
    var b := v.low[0];
    OnePacket(b);
    Begin();
    assert Settled(Raised(v)) == Settled(v) + [b.packet];
    OfConcat(true, Settled(v), [b.packet]);
    OfOne(true, b.packet);
  }

  // Low packet number `m` is complete, or a part of it has been written.
  ghost predicate Started(v: Side, m: nat)
    requires BuffersOk(v)
  {
    || |Of(true, v.done)| > m
    || (|Of(true, v.done)| == m && Begun(v) != [] && Waiting(v) != [] && Waiting(v)[0].low)
  }

  // Low packet number `m` has been delivered, and if it has left the low list
  // it was because the system took it.
  ghost predicate Listed(v: Side, m: nat) {
    BuffersOk(v) && m < Lead(v) + |v.low| && (m < Lead(v) ==> Started(v, m))
  }

  lemma OkBuffers(v: Side)
    requires Ok(v)
    ensures BuffersOk(v)
  {
  }

  lemma StartedStays(v: Side, op: Op, m: nat)
    requires Ok(v) && Started(v, m)
    ensures BuffersOk(Step(v, op)) && Started(Step(v, op), m)
  {
    hide Ok, Of, Step, Waiting, Packets;
    var r := Step(v, op);
    StepOk(v, op);
    OkBuffers(r);
    StepGrows(v, op);
    var more := r.done[|v.done|..];
    assert r.done == v.done + more;
    OfConcat(true, v.done, more);
    if |Of(true, v.done)| == m {
      BegunFirst(v);
      StepBegun(v, op);
      var p := Waiting(v)[0];
      if r.done != v.done {
        assert more == [p] + more[1..];
        OfConcat(true, [p], more[1..]);
        OfOne(true, p);
      }
    }
  }

  // Raising the first low packet starts it.
  lemma RaisedStarts(v: Side, n: nat)
    requires Ok(v) && v.dw.None? && v.direct.None? && v.high == [] && Begins(v, n)
    ensures BuffersOk(WroteHigh(Raised(v), n)) && Started(WroteHigh(Raised(v), n), Lead(v))
  {
    hide Ordered, Bytes, Left, Of;
    var b := v.low[0];
    var r := WroteHigh(Raised(v), n);
    RaisedOk(v);
    WroteHighOk(Raised(v), n);
    OfConcat(true, v.done, [b.packet]);
    OfOne(true, b.packet);
    assert Settled(v) == v.done;
  }

  lemma StepListed(v: Side, op: Op, m: nat)
    requires Ok(v) && Listed(v, m)
    ensures Listed(Step(v, op), m)
  {
    hide Ok, Of, Step, Waiting, Packets, Started, Settled, BuffersOk;
    var r := Step(v, op);
    StepOk(v, op);
    OkBuffers(r);
    StepLead(v, op);
    if Started(v, m) {
      StartedStays(v, op, m);
    } else if m < Lead(r) {
      RaisedStarts(v, op.n);
      WriteRaises(v, op.n);
    }
  }

  lemma WriteRaises(v: Side, n: nat)
    requires v.dw.None? && v.direct.None? && v.high == [] && Begins(v, n)
    ensures Step(v, OpWrite(n)) == WroteHigh(Raised(v), n)
  {
  }

  lemma {:induction false} RunListed(v: Side, ops: seq<Op>, m: nat)
    requires Ok(v) && Listed(v, m)
    ensures Ok(Run(v, ops)) && Listed(Run(v, ops), m)
    decreases |ops|
  {
    hide Step, Ok, Listed;
    RunFromOk(v, ops);
    if ops != [] {
      var n := |ops| - 1;
      RunListed(v, ops[..n], m);
      StepListed(Run(v, ops[..n]), ops[n], m);
    }
  }

  // What has been delivered.
  function Delivered(v: Side): seq<Packet> { Settled(v) + Packets(v.low) }

  // A low packet in the low list comes after all high packets that were
  // delivered.
  lemma LowIsLast(v: Side, m: nat)
    requires Ok(v) && Lead(v) <= m < Lead(v) + |v.low|
    ensures m < |Of(true, Line(v))| && Ahead(Line(v), m) == |Of(false, Delivered(v))|
  {
    hide Ok, Of, Packets, Settled, Ahead;
    LineIs(v);
    LowOnly(v);
    var a, l := Settled(v), Packets(v.low);
    AheadConcat(a, l + v.pipe, m);
    AheadConcat(l, v.pipe, m - Lead(v));
    AheadLow(l, m - Lead(v));
    OfConcat(true, a, l + v.pipe);
    OfConcat(true, l, v.pipe);
    OfConcat(false, a, l);
  }

  // The low packets in line are those that were issued, in order.
  lemma LowInLine(v: Side)
    requires Ok(v)
    ensures Of(true, Line(v)) == Of(true, v.issued)
  {
    hide Of, Bytes, Left;
    OfConcat(true, v.done, Waiting(v));
  }

  lemma PrefixAt(a: seq<Packet>, b: seq<Packet>, m: nat)
    requires a <= b && m < |Of(true, a)|
    ensures m < |Of(true, b)| && Of(true, b)[m] == Of(true, a)[m]
  {
    hide Of;
    assert b == a + b[|a|..];
    OfConcat(true, a, b[|a|..]);
  }

  // A low packet is delivered while a list is not empty. In every run, as long as it
  // has not been begun it comes after every high packet that has been delivered by
  // then; and these stay in front of it for ever, so they are complete before it.
  lemma HighOvertakes(v: Side, ops: seq<Op>, more: seq<Op>)
    requires Ok(v) && v.pipe != [] && v.pipe[0].low && !Empty(v)
    ensures var m := |Of(true, Delivered(v))|;
            var u := Run(Step(v, OpDeliver), ops);
            var w := Run(u, more);
            && BuffersOk(u)
            && m < |Of(true, Line(w))| && Of(true, Line(w))[m] == v.pipe[0]
            && (!Started(u, m) ==> Ahead(Line(w), m) >= Ahead(Line(u), m) == |Of(false, Delivered(u))|)
  {
    hide Ok, Of, Step, Run, Line, Ahead, Started;
    var r := Step(v, OpDeliver);
    var m := |Of(true, Delivered(v))|;
    var u := Run(r, ops);
    var w := Run(u, more);
    StepOk(v, OpDeliver);
    LowDelivered(v);
    RunListed(r, ops, m);
    RunFromOk(u, more);
    OnlyGrows(r, ops);
    OnlyGrows(u, more);
    LowInLine(r);
    LowInLine(u);
    LowInLine(w);
    PrefixAt(r.issued, u.issued, m);
    PrefixAt(u.issued, w.issued, m);
    AheadGrows(u, more, m);
    if !Started(u, m) { LowIsLast(u, m); }
  }

  lemma LowDelivered(v: Side)
    requires Ok(v) && v.pipe != [] && v.pipe[0].low && !Empty(v)
    ensures var r, m := Step(v, OpDeliver), |Of(true, Delivered(v))|;
            Listed(r, m) && m < |Of(true, Line(r))| && Of(true, Line(r))[m] == v.pipe[0]
  {
    hide Ok, Of, Packets, Ahead, Started;
    var r, p, d := AppendedLow(v), v.pipe[0], Delivered(v);
    StepOk(v, OpDeliver);
    OkBuffers(r);
    LowOnly(v);
    OfConcat(true, Settled(v), Packets(v.low));
    assert Settled(r) == Settled(v);
    LowLine(v);
    LineIs(v);
    OfConcat(true, d, [p] + v.pipe[1..]);
    OfConcat(true, [p], v.pipe[1..]);
    OfOne(true, p);
    assert Line(v) == d + ([p] + v.pipe[1..]);
  }

  // A low packet that has been begun, or was delivered into empty lists, is never
  // overtaken.
  lemma {:induction false} NeverOvertaken(v: Side, ops: seq<Op>, m: nat)
    requires Ok(v) && m < Lead(v)
    ensures var w := Run(v, ops);
            m < Lead(w) && m < |Of(true, Line(w))| && Ahead(Line(w), m) == Ahead(Line(v), m)
    decreases |ops|
  {
    hide Ok, Of, Step, Line, Ahead, Settled;
    LeadInLine(v);
    if ops != [] {
      var n := |ops| - 1;
      NeverOvertaken(v, ops[..n], m);
      RunFromOk(v, ops[..n]);
      StepAhead(Run(v, ops[..n]), ops[n], m);
      StepLead(Run(v, ops[..n]), ops[n]);
    }
  }

  lemma LeadInLine(v: Side)
    ensures Lead(v) <= |Of(true, Line(v))|
  {
    hide Of, Packets, Settled;
    LineIs(v);
    OfConcat(true, Settled(v), Packets(v.low) + v.pipe);
  }

  // -------------------------------------------------------------------------
  // Nothing is forgotten
  // -------------------------------------------------------------------------

  // What a caller hands in with an operation that is possible.
  function HandedBy(v: Side, op: Op): seq<Packet> {
    match op
    case OpDirect(data) =>
      if v.direct.None? && v.dw.None? && v.high == [] && v.low == [] && v.sending == 0 then [Packet(data, false)] else []
    case OpRequest(packet) => if v.between > 0 then [packet] else []
    case _ => []
  }

  function Handed(v: Side, ops: seq<Op>): seq<Packet> {
    if ops == [] then []
    else Handed(v, ops[..|ops| - 1]) + HandedBy(Run(v, ops[..|ops| - 1]), ops[|ops| - 1])
  }

  lemma {:induction false} HandedIsIssued(v: Side, ops: seq<Op>)
    ensures Run(v, ops).issued == v.issued + Handed(v, ops)
    decreases |ops|
  {
    hide Step, HandedBy;
    if ops != [] {
      var n := |ops| - 1;
      HandedIsIssued(v, ops[..n]);
      StepIssues(Run(v, ops[..n]), ops[n]);
    }
  }

  lemma StepIssues(v: Side, op: Op)
    ensures Step(v, op).issued == v.issued + HandedBy(v, op)
  {
  }

  // What the socket thread and the direct writer do by themselves.
  predicate Serves(op: Op) { op.OpDirectEnds? || op.OpDeliver? || op.OpMerge? || op.OpWrite? }

  lemma {:induction false} RunMore(v: Side, op: Op, ops: seq<Op>)
    ensures Run(v, [op] + ops) == Run(Step(v, op), ops)
    decreases |ops|
  {
    hide Step;
    if ops == [] {
      assert [op] + ops == [op] && [op][..0] == [];
    } else {
      var n := |ops| - 1;
      RunMore(v, op, ops[..n]);
      assert ([op] + ops)[..n + 1] == [op] + ops[..n];
    }
  }

  // The next thing to do as long as a packet waits.
  function NextOp(v: Side): Op
    requires BuffersOk(v)
  {
    if v.direct.Some? then OpDirectEnds(|v.direct.value.data|)
    else if v.pipe != [] then OpDeliver
    else if v.dw.Some? then OpMerge
    else if v.high != [] then
      assert BufferOk(v.high[0]);
      OpWrite(|Rest(v.high[0])|)
    else if v.low != [] then OpWrite(|v.low[0].packet.data|)
    else OpMerge
  }

  // From every state a run goes on, without another packet, to one where nothing
  // waits: what callers handed in is then complete, in order for each priority.
  lemma {:induction false} AllGetWritten(v: Side) returns (ops: seq<Op>)
    requires Ok(v)
    ensures forall k :: 0 <= k < |ops| ==> Serves(ops[k])
    ensures var r := Run(v, ops);
            && Waiting(r) == [] && r.issued == v.issued && r.wire == Bytes(r.done)
            && Of(false, r.done) == Of(false, v.issued) && Of(true, r.done) == Of(true, v.issued)
    decreases if v.direct.Some? then 1 else 0, |v.pipe|, if v.dw.Some? then 1 else 0, |v.high|, |v.low|
  {
    hide Step, Ordered, Bytes, Left, Of;
    if Waiting(v) == [] {
      ops := [];
      assert Run(v, ops) == v;
      NothingWaits(v);
    } else {
      var op := NextOp(v);
      var r := Step(v, op);
      NextOpServes(v);
      StepOk(v, op);
      var rest := AllGetWritten(r);
      ops := [op] + rest;
      RunMore(v, op, rest);
    }
  }

  lemma NothingWaits(v: Side)
    requires Ok(v) && Waiting(v) == []
    ensures v.wire == Bytes(v.done) && Of(false, v.done) == Of(false, v.issued) && Of(true, v.done) == Of(true, v.issued)
  {
    hide Bytes, Left;
    Nothing();
    assert v.high == [];
  }

  lemma NextOpServes(v: Side)
    requires Ok(v) && Waiting(v) != []
    ensures var r := Step(v, NextOp(v));
            && Serves(NextOp(v)) && r.issued == v.issued
            && (r.direct.None? || r.direct == v.direct)
            && ((v.direct.Some? && r.direct.None?)
             || (v.direct.None? && |r.pipe| < |v.pipe|)
             || (v.direct.None? && r.pipe == v.pipe && v.dw.Some? && r.dw.None?)
             || (v.direct.None? && r.pipe == v.pipe && v.dw.None? && r.dw.None? &&
                 (|r.high| < |v.high| || (|r.high| == |v.high| && |r.low| < |v.low|))))
  {
    hide Ordered, Bytes, Left;
  }

  // The stream is a sequence of whole packets, each once, followed by the
  // beginning of one packet; and for each priority the packets in it are the
  // first ones that were issued.
  lemma StreamOfPackets(ops: seq<Op>)
    ensures var v := Run(START, ops);
            BuffersOk(v) && PacketStream(v)
  {
    hide Run;
    RunOk(ops);
  }

  ghost predicate PacketStream(v: Side)
    requires BuffersOk(v)
  {
    && v.wire == Bytes(v.done) + Begun(v)
    && Of(false, v.done) <= Of(false, v.issued) && Of(true, v.done) <= Of(true, v.issued)
    && (Waiting(v) == [] ==> Of(false, v.done) == Of(false, v.issued) && Of(true, v.done) == Of(true, v.issued))
  }

  lemma FirstOk(v: Side)
    requires Ok(v) && v.high != []
    ensures BufferOk(v.high[0])
  {
  }

  lemma Nothing()
    ensures Of(false, []) == [] && Of(true, []) == []
  {
  }

  lemma Begin()
    ensures Packets([]) == []
  {
  }

  lemma LowPackets(list: seq<Buffer>)
    requires forall k :: 0 <= k < |list| ==> list[k].packet.low
    ensures Of(false, Packets(list)) == []
    decreases |list|
  {
    if list != [] {
      LowPackets(list[1..]);
      assert Packets(list)[1..] == Packets(list[1..]);
    }
  }

  // The first packet on its way is complete.
  lemma Completed(issued: seq<Packet>, done: seq<Packet>, p: Packet, rest: seq<Packet>)
    requires Ordered(issued, done, [p] + rest)
    ensures Ordered(issued, done + [p], rest)
  {
    hide Of;
    OfConcat(false, done, [p]);
    OfConcat(false, [p], rest);
    OfConcat(true, done, [p]);
    OfConcat(true, [p], rest);
  }

  // A packet goes in front of low ones, unless it is low itself and there are
  // none.
  lemma Overtake(issued: seq<Packet>, done: seq<Packet>, before: seq<Packet>, lows: seq<Packet>, p: Packet,
                 after: seq<Packet>)
    requires Of(false, lows) == [] && (p.low ==> lows == []) && Ordered(issued, done, before + lows + [p] + after)
    ensures Ordered(issued, done, before + [p] + lows + after)
  {
    hide Of;
    OvertakeOne(false, before, lows, p, after);
    OvertakeOne(true, before, lows, p, after);
  }

  lemma OvertakeOne(low: bool, before: seq<Packet>, lows: seq<Packet>, p: Packet, after: seq<Packet>)
    requires Of(false, lows) == [] && (p.low ==> lows == [])
    ensures Of(low, before + lows + [p] + after) == Of(low, before + [p] + lows + after)
  {
    hide Of;
    Nothing();
    OfOne(low, p);
    OfConcat(low, before, lows);
    OfConcat(low, before + lows, [p]);
    OfConcat(low, before + lows + [p], after);
    OfConcat(low, before, [p]);
    OfConcat(low, before + [p], lows);
    OfConcat(low, before + [p] + lows, after);
  }

  // Issuing a packet that is the last one on its way.
  lemma Issue(issued: seq<Packet>, done: seq<Packet>, waiting: seq<Packet>, p: Packet)
    requires Ordered(issued, done, waiting)
    ensures Ordered(issued + [p], done, waiting + [p])
  {
    hide Of;
    OfConcat(false, issued, [p]);
    OfConcat(true, issued, [p]);
    OfConcat(false, waiting, [p]);
    OfConcat(true, waiting, [p]);
  }
}
