// The life of a socket, socket_server.c.

module SocketLife {
  // Closing from either side, what is reported of it, and what becomes of the data
  // that was to be sent.

  datatype Kind =
    | PListen | Listen | Connecting | Connected | HalfCloseRead | HalfCloseWrite | PAccept | Bind | Invalid

  // `WriteError` is the error of a failed write, `Refused` the one of a connection
  // that is not made.
  datatype Report = Nothing | Data | Close | Open | Error | WriteError | Refused | Warning

  // What is kept of a socket. There are `pending` buffers in its two lists, and `rest`
  // tells whether a direct write left something; together they have `listed`
  // bytes. `sending` requests to send, and `triggers` requests to turn on the write
  // events, are on their way. Of all bytes that were `accepted`, some are
  // `written`, and some `lost` because the socket went away.
  datatype View = View(
    kind: Kind,
    closing: bool,
    reading: bool,
    writing: bool,
    pending: nat,
    rest: bool,
    listed: nat,
    sending: nat,
    triggers: nat,
    accepted: nat,
    written: nat,
    lost: nat)

  datatype Outcome = Outcome(view: View, report: Report)

  // What the system answers. A write stops with `buffers` and `bytes` left.
  datatype ReadResult = ReadAgain | ReadFailed | ReadEof | ReadSome
  datatype WriteResult = WriteAgain(buffers: nat, bytes: nat) | WriteFailed(buffers: nat, bytes: nat) | WriteDone

  // There is data that waits to be written.
  predicate Waits(v: View) { v.pending > 0 || v.rest }

  // `nomore_sending_data`
  predicate NothingToSend(v: View) { (!Waits(v) && v.sending == 0) || v.kind == HalfCloseWrite }

  // `force_close`
  function ForceClosed(v: View): View {
    if v.kind == Invalid then v
    else v.(kind := Invalid, pending := 0, rest := false, listed := 0, lost := v.lost + v.listed)
  }

  // `close_read`
  function ReadClosed(v: View): View { v.(kind := HalfCloseRead, reading := false) }

  // `close_write`: the report is `Nothing` where the source returns RST.
  function WriteClosed(v: View): Outcome {
    if v.closing || v.kind == HalfCloseRead then Outcome(ForceClosed(v), Nothing)
    else if v.kind == HalfCloseWrite then Outcome(v, Nothing)
    else Outcome(v.(kind := HalfCloseWrite, writing := false), WriteError)
  }

  // The rest of a direct write goes to the lists.
  function Merged(v: View): View {
    if v.rest then v.(rest := false, pending := v.pending + 1) else v
  }

  // Such an answer is possible.
  predicate Fits(v: View, w: WriteResult) {
    w.WriteDone? || (0 < w.buffers <= Merged(v).pending && w.bytes <= v.listed)
  }

  function Wrote(v: View, buffers: nat, bytes: nat): View
    requires bytes <= v.listed
  {
    v.(pending := buffers, listed := bytes, written := v.written + v.listed - bytes)
  }

  // `send_buffer`, unless a direct write holds the lock; turning the events
  // off may fail, and a warning may be due.
  function Sent(v: View, w: WriteResult, report: Report): Outcome
    requires Fits(v, w)
  {
    var m := Merged(v);
    match w
    case WriteAgain(buffers, bytes) => Outcome(Wrote(m, buffers, bytes), Nothing)
    case WriteFailed(buffers, bytes) => WriteClosed(Wrote(m, buffers, bytes))
    case WriteDone =>
      var d := Wrote(m, 0, 0);
      if v.closing then Outcome(ForceClosed(d), Nothing)
      else Outcome(d.(writing := false), if report == Error || report == Warning then report else Nothing)
  }

  // `forward_message_tcp`
  function Forwarded(v: View, r: ReadResult): Outcome {
    match r
    case ReadAgain => Outcome(v, Nothing)
    case ReadFailed => Outcome(v, Error)
    case ReadEof =>
      if v.closing then Outcome(if NothingToSend(v) then ForceClosed(v) else v, Nothing)
      else if v.kind == HalfCloseRead then Outcome(v, Nothing)
      else if v.kind == HalfCloseWrite then Outcome(ForceClosed(v), Close)
      else Outcome(ReadClosed(v), Close)
    case ReadSome => Outcome(v, if v.kind == HalfCloseRead then Nothing else Data)
  }

  // `close_socket`
  function ClosedHere(v: View, shutdown: bool): Outcome {
    if v.kind == Invalid then Outcome(v, Nothing)
    else if shutdown || NothingToSend(v) then
      Outcome(ForceClosed(v), if v.kind == HalfCloseRead then Nothing else Close)
    else if v.kind == HalfCloseRead then Outcome(v.(closing := true), Nothing)
    else Outcome(ReadClosed(v.(closing := true)), Close)
  }

  // `report_connect`; `enabled` tells whether the write events can be turned
  // off.
  function ConnectDone(v: View, ok: bool, enabled: bool): Outcome {
    if !ok then Outcome(ForceClosed(v), Refused)
    else
      var c := v.(kind := Connected);
      if !NothingToSend(c) then Outcome(c, Open)
      else if enabled || !v.writing then Outcome(c.(writing := false), Open)
      else Outcome(ForceClosed(c.(writing := false)), Refused)
  }

  // The eof event.
  function RemoteGone(v: View): Outcome {
    Outcome(ForceClosed(v), if v.kind == HalfCloseRead then Nothing else Close)
  }

  // `resume_socket`; `enabled` tells whether the read events can be turned on.
  function Resumed(v: View, enabled: bool): Outcome {
    if v.kind == Invalid || v.kind == HalfCloseRead then Outcome(v, Error)
    else
      var r := v.(reading := true);
      if !enabled && !v.reading then Outcome(r, Error)
      else if v.kind == PAccept then Outcome(r.(kind := Connected), Open)
      else if v.kind == PListen then Outcome(r.(kind := Listen), Open)
      else if v.kind == Connected then Outcome(r, Open)
      else Outcome(r, Nothing)
  }

  // `pause_socket`
  function Paused(v: View, enabled: bool): Outcome {
    if v.kind == Invalid then Outcome(v, Nothing)
    else Outcome(v.(reading := false), if enabled || !v.reading then Nothing else Error)
  }

  predicate TakesNoData(k: Kind) { k.Invalid? || k.HalfCloseWrite? || k.PAccept? || k.PListen? || k.Listen? }

  // A buffer of `size` bytes goes to a list, and if it is the first one the write
  // events are turned on.
  function Appended(v: View, size: nat): View {
    v.(pending := v.pending + 1, listed := v.listed + size, accepted := v.accepted + size,
       writing := v.writing || v.pending == 0)
  }

  // `send_socket` and `dec_sending_ref`: a request of `size` bytes is put into a
  // list, or dropped. The socket may be one that takes no data.
  function Requested(v: View, size: nat, enabled: bool, warn: bool): Outcome
    requires v.sending > 0
  {
    var d := v.(sending := v.sending - 1);
    if TakesNoData(v.kind) || v.closing then Outcome(d, Nothing)
    else
      Outcome(
        Appended(d, size),
        if v.pending == 0 && !v.writing && !enabled then Error else if warn then Warning else Nothing)
  }

  // `trigger_write`
  function Triggered(v: View, enabled: bool): Outcome
    requires v.triggers > 0
  {
    var d := v.(triggers := v.triggers - 1);
    if v.kind == Invalid then Outcome(d, Nothing)
    else Outcome(d.(writing := true), if enabled || v.writing then Nothing else Error)
  }

  // `socket_server_send`: a caller may write by itself only if nothing waits.
  predicate Direct(v: View) { v.kind == Connected && !v.closing && NothingToSend(v) }

  // The system takes `n` of `size` bytes; a trigger is sent if something is left.
  function DirectSent(v: View, size: nat, n: nat): View
    requires Direct(v) && n <= size
  {
    var r := v.(accepted := v.accepted + size, written := v.written + n);
    if n == size then r
    else r.(rest := true, listed := v.listed + size - n, triggers := v.triggers + 1)
  }

  // -------------------------------------------------------------------------
  // Runs
  // -------------------------------------------------------------------------

  // The events that the system has seen for a socket.
  datatype Flags = Flags(read: bool, write: bool, error: bool, eof: bool)

  datatype Op =
    | Poll(flags: Flags, rd: ReadResult, wr: WriteResult, ok: bool, enabled: bool, extra: Report, locked: bool)
    | CloseSocket(shutdown: bool)
    | Resume(resumable: bool)
    | Pause(pausable: bool)
    | SendDirect(whole: nat, taken: nat)
    | Reserve
    | Request(size: nat, sendable: bool, warn: bool)
    | Trigger(writable: bool)

  // One event in `socket_server_poll`.
  function Polled(v: View, op: Op): Outcome
    requires op.Poll?
  {
    match v.kind
    case Connecting => ConnectDone(v, op.ok, op.enabled)
    case Listen => Outcome(v, Nothing)
    case Invalid => Outcome(v, Nothing)
    case _ =>
      if op.flags.read then Forwarded(v, op.rd)
      else if op.flags.write then
        if op.locked || !Fits(v, op.wr) then Outcome(v, Nothing) else Sent(v, op.wr, op.extra)
      else if op.flags.error then Outcome(v, Error)
      else if op.flags.eof then RemoteGone(v)
      else Outcome(v, Nothing)
  }

  // An operation that is not possible now changes nothing.
  function Step(v: View, op: Op): Outcome {
    match op
    case Poll(_, _, _, _, _, _, _) => Polled(v, op)
    case CloseSocket(shutdown) => ClosedHere(v, shutdown)
    case Resume(enabled) => Resumed(v, enabled)
    case Pause(enabled) => Paused(v, enabled)
    case SendDirect(size, n) => Outcome(if Direct(v) && n <= size then DirectSent(v, size, n) else v, Nothing)
    case Reserve => Outcome(v.(sending := v.sending + 1), Nothing)
    case Request(size, enabled, warn) => if v.sending > 0 then Requested(v, size, enabled, warn) else Outcome(v, Nothing)
    case Trigger(enabled) => if v.triggers > 0 then Triggered(v, enabled) else Outcome(v, Nothing)
  }

  // What `new_fd` and its callers make.
  predicate Fresh(v: View) {
    && v.kind in {PListen, Connecting, Connected, PAccept, Bind}
    && v == View(v.kind, false, v.reading, v.writing, 0, false, 0, 0, 0, 0, 0, 0)
  }

  function Run(v: View, ops: seq<Op>): View {
    if ops == [] then v else Step(Run(v, ops[..|ops| - 1]), ops[|ops| - 1]).view
  }

  function Reports(v: View, ops: seq<Op>): (r: seq<Report>)
    ensures |r| == |ops|
  {
    if ops == [] then []
    else Reports(v, ops[..|ops| - 1]) + [Step(Run(v, ops[..|ops| - 1]), ops[|ops| - 1]).report]
  }

  function Count(log: seq<Report>, r: Report): nat { multiset(log)[r] }

  // The end of the socket is among the reports.
  function Ends(log: seq<Report>): nat { Count(log, Close) + Count(log, Refused) }

  predicate IsEnd(r: Report) { r == Close || r == Refused }

  // How the state and the reports so far belong together.
  ghost predicate Sane(v: View, log: seq<Report>) {
    && Ends(log) <= 1 && Count(log, WriteError) <= 1
    && (v.kind == HalfCloseRead ==> Count(log, Close) == 1 && Count(log, WriteError) == 0 && !v.reading)
    && (v.kind == HalfCloseWrite ==> Count(log, WriteError) == 1)
    && (v.kind == Invalid ==> Ends(log) == 1)
    && (v.kind != HalfCloseRead && v.kind != Invalid ==> Ends(log) == 0 && !v.closing)
    && (v.kind !in {HalfCloseRead, HalfCloseWrite, Invalid} ==> Count(log, WriteError) == 0)
    && forall j, k :: 0 <= j < k < |log| && IsEnd(log[j]) ==> log[k] != Data && log[k] != WriteError
  }

  // Every accepted byte is written, waits or is lost; and data that waits will
  // be looked at, because the write events are on or will be turned on.
  predicate Booked(v: View) {
    && v.accepted == v.written + v.listed + v.lost
    && (v.listed > 0 ==> Waits(v))
    && (v.kind == Invalid ==> !Waits(v))
    && (Waits(v) && v.kind != HalfCloseWrite ==> v.writing || v.triggers > 0)
    && (Waits(v) ==> !v.kind.PListen? && !v.kind.Listen? && !v.kind.PAccept?)
  }

  lemma CountOneMore(log: seq<Report>, r: Report, x: Report)
    ensures Count(log + [r], x) == Count(log, x) + if r == x then 1 else 0
  {
  }

  lemma CountNothing(x: Report)
    ensures Count([], x) == 0
  {
  }

  // A report that is counted zero times has not been made.
  lemma NoneBefore(log: seq<Report>, r: Report)
    requires Count(log, r) == 0
    ensures r !in log
  {
    assert multiset(log)[r] == 0;
  }

  lemma OneMore(v: View, log: seq<Report>, r: Report)
    requires Ends(log) == 0 || (r != Data && r != WriteError)
    requires forall j, k :: 0 <= j < k < |log| && IsEnd(log[j]) ==> log[k] != Data && log[k] != WriteError
    ensures forall j, k :: 0 <= j < k <= |log| && IsEnd((log + [r])[j]) ==> (log + [r])[k] != Data && (log + [r])[k] != WriteError
    ensures Count(log + [r], Close) == Count(log, Close) + if r == Close then 1 else 0
    ensures Count(log + [r], Refused) == Count(log, Refused) + if r == Refused then 1 else 0
    ensures Count(log + [r], WriteError) == Count(log, WriteError) + if r == WriteError then 1 else 0
  {
    CountOneMore(log, r, Close);
    CountOneMore(log, r, Refused);
    CountOneMore(log, r, WriteError);
    if Ends(log) == 0 {
      NoneBefore(log, Close);
      NoneBefore(log, Refused);
    }
  }

  lemma SentSane(v: View, log: seq<Report>, w: WriteResult, extra: Report)
    requires Sane(v, log) && Fits(v, w) && v.kind !in {Invalid, Connecting, Listen}
    ensures Sane(Sent(v, w, extra).view, log + [Sent(v, w, extra).report])
    ensures w.WriteFailed? ==>
              (Sent(v, w, extra).report == WriteError <==> Ends(log) == 0 && Count(log, WriteError) == 0)
              && (Sent(v, w, extra).view.kind == Invalid <==> Ends(log) == 1)
  {
    hide Count;
    OneMore(v, log, Sent(v, w, extra).report);
  }

  lemma PolledSane(v: View, log: seq<Report>, op: Op)
    requires Sane(v, log) && op.Poll?
    ensures Sane(Polled(v, op).view, log + [Polled(v, op).report])
    ensures IsEnd(Polled(v, op).report) ==> Ends(log) == 0
  {
    hide Count, Sent, Fits;
    if v.kind !in {Connecting, Listen, Invalid} && !op.flags.read && op.flags.write && !op.locked && Fits(v, op.wr) {
      SentSane(v, log, op.wr, op.extra);
      SentNoEnd(v, op.wr, op.extra);
    } else {
      OneMore(v, log, Polled(v, op).report);
    }
  }

  lemma SentNoEnd(v: View, w: WriteResult, extra: Report)
    requires Fits(v, w)
    ensures !IsEnd(Sent(v, w, extra).report)
  {
  }

  lemma StepSane(v: View, log: seq<Report>, op: Op)
    requires Sane(v, log)
    ensures Sane(Step(v, op).view, log + [Step(v, op).report])
  {
    hide Count, Polled;
    if op.Poll? {
      PolledSane(v, log, op);
    } else {
      OneMore(v, log, Step(v, op).report);
    }
  }

  lemma SentBooked(v: View, w: WriteResult, extra: Report)
    requires Booked(v) && Fits(v, w)
    ensures Booked(Sent(v, w, extra).view)
  {
    hide WriteClosed;
    var m := Merged(v);
    if w.WriteFailed? { WriteClosedBooked(Wrote(m, w.buffers, w.bytes)); }
  }

  lemma WriteClosedBooked(v: View)
    requires Booked(v)
    ensures Booked(WriteClosed(v).view)
  {
  }

  lemma PolledBooked(v: View, op: Op)
    requires Booked(v) && op.Poll?
    ensures Booked(Polled(v, op).view)
  {
    hide Sent, Fits, Forwarded, ConnectDone, RemoteGone;
    ForwardedBooked(v, op.rd);
    if v.kind == Connecting { ConnectBooked(v, op.ok, op.enabled); }
    if Fits(v, op.wr) { SentBooked(v, op.wr, op.extra); }
  }

  lemma ForwardedBooked(v: View, r: ReadResult)
    requires Booked(v)
    ensures Booked(Forwarded(v, r).view) && Booked(RemoteGone(v).view)
  {
  }

  lemma ConnectBooked(v: View, ok: bool, enabled: bool)
    requires Booked(v) && v.kind == Connecting
    ensures Booked(ConnectDone(v, ok, enabled).view)
  {
  }

  lemma StepBooked(v: View, op: Op)
    requires Booked(v)
    ensures Booked(Step(v, op).view)
  {
    hide Polled;
    if op.Poll? { PolledBooked(v, op); }
  }

  lemma FreshSane(v: View)
    requires Fresh(v)
    ensures Sane(v, []) && Booked(v)
  {
  }

  lemma {:induction false} RunSane(v: View, ops: seq<Op>)
    requires Fresh(v)
    ensures Sane(Run(v, ops), Reports(v, ops)) && Booked(Run(v, ops))
    decreases |ops|
  {
    hide Step, Sane, Booked, Fresh;
    if ops == [] {
      FreshSane(v);
    } else {
      RunSane(v, ops[..|ops| - 1]);
      StepSane(Run(v, ops[..|ops| - 1]), Reports(v, ops[..|ops| - 1]), ops[|ops| - 1]);
      StepBooked(Run(v, ops[..|ops| - 1]), ops[|ops| - 1]);
    }
  }

  // The end of a socket is reported once at most, and neither data nor a failed
  // write after it; a failed write is reported once at most. While a socket only waits
  // for its data to be sent it is not read from. A socket that is gone has been
  // reported: as closed, or as never connected.
  lemma EndReportedOnce(v: View, ops: seq<Op>)
    requires Fresh(v)
    ensures var log := Reports(v, ops);
            && Count(log, Close) <= 1 && Count(log, WriteError) <= 1
            && (forall j, k :: 0 <= j < k < |log| && log[j] == Close ==> log[k] !in {Data, WriteError, Close})
            && (Count(log, Close) == 1 ==> Run(v, ops).kind == Invalid || !Run(v, ops).reading)
            && (Run(v, ops).kind == Invalid ==> Count(log, Close) == 1 || (Count(log, Refused) == 1 && v.kind == Connecting))
  {
    hide Run, Reports, Count;
    RunSane(v, ops);
    var log := Reports(v, ops);
    forall j, k | 0 <= j < k < |log| && log[j] == Close ensures log[k] !in {Data, WriteError, Close} {
      if log[k] == Close { TwiceCounts(log, j, k, Close); }
    }
    RefusedConnecting(v, ops);
  }

  lemma TwiceCounts(log: seq<Report>, j: nat, k: nat, r: Report)
    requires j < k < |log| && log[j] == r && log[k] == r
    ensures Count(log, r) >= 2
  {
    assert log == log[..k] + log[k..];
    assert r in log[..k] && r in log[k..];
  }

  lemma StepRefused(v: View, op: Op)
    requires v.kind != Connecting
    ensures Step(v, op).view.kind != Connecting && Step(v, op).report != Refused
  {
    hide Fits, Sent;
    if op.Poll? && Fits(v, op.wr) { SentRefused(v, op.wr, op.extra); }
  }

  lemma SentRefused(v: View, w: WriteResult, extra: Report)
    requires Fits(v, w) && v.kind != Connecting
    ensures Sent(v, w, extra).view.kind != Connecting && Sent(v, w, extra).report != Refused
  {
  }

  // Only a socket that was connecting can be refused.
  lemma {:induction false} RefusedConnecting(v: View, ops: seq<Op>)
    requires Fresh(v)
    ensures v.kind != Connecting ==> Count(Reports(v, ops), Refused) == 0 && Run(v, ops).kind != Connecting
    decreases |ops|
  {
    hide Step, Count;
    if ops == [] {
      assert Count([], Refused) == 0 by { CountNothing(Refused); }
    } else {
      var n := |ops| - 1;
      RefusedConnecting(v, ops[..n]);
      if v.kind != Connecting { StepRefused(Run(v, ops[..n]), ops[n]); }
      CountOneMore(Reports(v, ops[..n]), Step(Run(v, ops[..n]), ops[n]).report, Refused);
    }
  }

  // -------------------------------------------------------------------------
  // What is accepted is sent
  // -------------------------------------------------------------------------

  // The events that end a socket, or its writing, with data on its way: a
  // shutdown from here, a failed write, the eof event, a failed connection.
  predicate Aborts(op: Op) {
    match op
    case Poll(flags, _, wr, ok, enabled, _, _) => flags.eof || wr.WriteFailed? || !ok || !enabled
    case CloseSocket(shutdown) => shutdown
    case _ => false
  }

  lemma StepLoses(v: View, op: Op)
    requires Booked(v) && !Aborts(op) && v.kind != HalfCloseWrite
    ensures Step(v, op).view.lost == v.lost && Step(v, op).view.kind != HalfCloseWrite
  {
    hide Fits, Sent;
    if op.Poll? && Fits(v, op.wr) { SentLoses(v, op.wr, op.extra); }
  }

  lemma SentLoses(v: View, w: WriteResult, extra: Report)
    requires Booked(v) && Fits(v, w) && !w.WriteFailed? && v.kind != HalfCloseWrite
    ensures Sent(v, w, extra).view.lost == v.lost && Sent(v, w, extra).view.kind != HalfCloseWrite
  {
  }

  // Closing a socket is graceful: without such an event, whatever is closed on
  // either side, nothing is lost, and a socket is gone only when all that was
  // accepted has been written.
  lemma AllSent(v: View, ops: seq<Op>)
    requires Fresh(v) && forall k :: 0 <= k < |ops| ==> !Aborts(ops[k])
    ensures var r := Run(v, ops);
            && r.lost == 0 && r.kind != HalfCloseWrite && r.accepted == r.written + r.listed
            && (r.kind == Invalid ==> r.written == r.accepted)
  {
    hide Run, Aborts, Sane, Fresh;
    RunSane(v, ops);
    LosesNothing(v, ops);
  }

  lemma {:induction false} LosesNothing(v: View, ops: seq<Op>)
    requires Fresh(v) && forall k :: 0 <= k < |ops| ==> !Aborts(ops[k])
    ensures Run(v, ops).lost == 0 && Run(v, ops).kind != HalfCloseWrite
    decreases |ops|
  {
    hide Step, Aborts, Sane, Booked;
    if ops != [] {
      var n := |ops| - 1;
      LosesNothing(v, ops[..n]);
      RunSane(v, ops[..n]);
      StepLoses(Run(v, ops[..n]), ops[n]);
    }
  }

  // The socket has been closed here, and nothing is left to wait for.
  predicate Stuck(v: View) { v.closing && v.kind == HalfCloseRead && !Waits(v) && v.sending == 0 }

  // A request arrives that is the last thing a socket waits for after it has
  // been closed here. It is dropped.
  predicate Strands(v: View, op: Op) {
    op.Request? && v.closing && v.kind == HalfCloseRead && !Waits(v) && v.sending == 1
  }

  lemma StuckExactly(v: View, log: seq<Report>, op: Op)
    requires Sane(v, log) && !Stuck(v)
    ensures Stuck(Step(v, op).view) <==> Strands(v, op)
  {
    hide Count;
  }

  // A socket that was closed here waits for its data, and will be looked at again, or
  // for a request on its way; unless a request was dropped as its last one.
  lemma {:induction false} ClosingEnds(v: View, ops: seq<Op>)
    requires Fresh(v) && Run(v, ops).closing && Run(v, ops).kind != Invalid
    requires forall k :: 0 <= k < |ops| ==> !Strands(Run(v, ops[..k]), ops[k])
    ensures var r := Run(v, ops);
            (Waits(r) && (r.writing || r.triggers > 0)) || r.sending > 0
  {
    hide Step, Count, Run, Strands;
    RunSane(v, ops);
    NotStuck(v, ops);
  }

  lemma {:induction false} NotStuck(v: View, ops: seq<Op>)
    requires Fresh(v) && forall k :: 0 <= k < |ops| ==> !Strands(Run(v, ops[..k]), ops[k])
    ensures !Stuck(Run(v, ops))
    decreases |ops|
  {
    hide Step, Strands, Sane;
    if ops != [] {
      var n := |ops| - 1;
      forall k | 0 <= k < n ensures !Strands(Run(v, ops[..n][..k]), ops[..n][k]) {
        assert ops[..n][..k] == ops[..k];
      }
      NotStuck(v, ops[..n]);
      RunSane(v, ops[..n]);
      StuckExactly(Run(v, ops[..n]), Reports(v, ops[..n]), ops[n]);
    }
  }

  // A socket that was closed here comes to wait for nothing in a run if and only if
  // a request was dropped as the last thing it waited for.
  lemma StrandedExactly(v: View, ops: seq<Op>)
    requires Fresh(v)
    ensures (exists k :: 0 <= k <= |ops| && Stuck(Run(v, ops[..k]))) <==>
            (exists k :: 0 <= k < |ops| && Strands(Run(v, ops[..k]), ops[k]))
  {
    hide Step, Run, Strands, Sane;
    if k :| 0 <= k < |ops| && Strands(Run(v, ops[..k]), ops[k]) {
      RunSane(v, ops[..k]);
      RunStep(v, ops, k);
      Stranded(Run(v, ops[..k]), Reports(v, ops[..k]), ops[k]);
      assert Stuck(Run(v, ops[..k + 1]));
    } else {
      forall k | 0 <= k <= |ops| ensures !Stuck(Run(v, ops[..k])) {
        forall j | 0 <= j < k ensures !Strands(Run(v, ops[..k][..j]), ops[..k][j]) {
          assert ops[..k][..j] == ops[..j];
        }
        NotStuck(v, ops[..k]);
      }
    }
  }

  lemma Stranded(v: View, log: seq<Report>, op: Op)
    requires Sane(v, log) && Strands(v, op)
    ensures Stuck(Step(v, op).view)
  {
    hide Step, Sane;
    StuckExactly(v, log, op);
  }

  lemma RunStep(v: View, ops: seq<Op>, k: nat)
    requires k < |ops|
    ensures Run(v, ops[..k + 1]) == Step(Run(v, ops[..k]), ops[k]).view
  {
    hide Step;
    assert ops[..k + 1][..k] == ops[..k];
  }

  // A request is accepted whole or dropped.
  lemma Accepts(v: View, size: nat, enabled: bool, warn: bool)
    requires Booked(v) && v.sending > 0
    ensures var r := Requested(v, size, enabled, warn).view;
            if v.closing || TakesNoData(v.kind) then r.accepted == v.accepted
            else r.accepted == v.accepted + size && Waits(r) && (r.writing || r.triggers > 0)
  {
  }

  // A caller has announced a packet when another one closes the socket: the
  // packet is dropped, and the socket stays although nothing is left to send and no
  // event of it is turned on.
  lemma ClosedWhileSending(size: nat)
    ensures var v := View(Connected, false, true, false, 0, false, 0, 0, 0, 0, 0, 0);
            var r := Run(v, [Reserve, CloseSocket(false), Request(size, true, false)]);
            Fresh(v) && Stuck(r) && !r.reading && !r.writing && r.triggers == 0 && r.accepted == 0
  {
    var v := View(Connected, false, true, false, 0, false, 0, 0, 0, 0, 0, 0);
    var ops := [Reserve, CloseSocket(false), Request(size, true, false)];
    assert ops[..2][..1] == [Reserve] && ops[..2][1] == CloseSocket(false);
    assert Run(v, []) == v && [Reserve][..0] == [];
    assert Run(v, [Reserve]) == v.(sending := 1);
    assert Run(v, ops[..2]) == Step(v.(sending := 1), CloseSocket(false)).view;
  }

  // -------------------------------------------------------------------------
  // What an event achieves
  // -------------------------------------------------------------------------

  // The bytes that the system has not taken.
  function LeftBy(w: WriteResult): nat { if w.WriteDone? then 0 else w.bytes }

  // What a write event comes to: the bytes that the system takes are written, and
  // the others wait, or are lost if a failed write ends the socket. When all is
  // written nothing waits, and a socket that was closed here is gone.
  ghost predicate Flushed(v: View, w: WriteResult, r: View) {
    && r.written + LeftBy(w) == v.written + v.listed && r.accepted == v.accepted
    && r.listed == (if r.kind == Invalid then 0 else LeftBy(w))
    && r.lost == v.lost + (if r.kind == Invalid then LeftBy(w) else 0)
    && (w.WriteAgain? ==> r.kind == v.kind)
    && (w.WriteDone? ==> !Waits(r) && (r.kind == Invalid || !r.writing))
    && (w.WriteDone? ==> (r.kind == Invalid <==> v.closing))
  }

  // What one event comes to, when `log` has been reported before.
  ghost predicate Achieved(v: View, log: seq<Report>, op: Op, r: View, report: Report)
    requires op.Poll?
  {
    && (v.kind.Connecting? ==> r.kind == (if report == Open then Connected else Invalid))
    && (v.kind.Connecting? && op.ok && op.enabled ==> report == Open)
    && (v.kind.Listen? || v.kind.Invalid? ==> r == v && report == Nothing)
    && (!v.kind.Connecting? && !v.kind.Listen? && !v.kind.Invalid? ==>
          && (op.flags.read && op.rd == ReadSome ==> report == (if Ends(log) == 0 then Data else Nothing) && r == v)
          && (op.flags.read && op.rd == ReadEof ==> report == (if Ends(log) == 0 then Close else Nothing) && Gone(v, r))
          && (op.flags.read && op.rd == ReadFailed ==> report == Error && r == v)
          && (!op.flags.read && op.flags.write && !op.locked ==> Flushed(v, op.wr, r))
          && (!op.flags.read && !op.flags.write && op.flags.error ==> report == Error && r == v)
          && (!op.flags.read && !op.flags.write && !op.flags.error && op.flags.eof ==>
                report == (if Ends(log) == 0 then Close else Nothing) && r.kind == Invalid))
  }

  // After the end of its data a socket is not read from. It is gone if it cannot be
  // written to either, and if it was closed here with nothing to be sent.
  predicate Gone(v: View, r: View) {
    if v.kind == HalfCloseWrite || (v.closing && NothingToSend(v)) then r.kind == Invalid
    else r.kind == HalfCloseRead && !r.reading && r.lost == v.lost && r.listed == v.listed
  }

  lemma SentFlushes(v: View, w: WriteResult, extra: Report)
    requires Booked(v) && Fits(v, w) && !v.kind.Invalid?
    ensures Flushed(v, w, Sent(v, w, extra).view)
  {
  }

  lemma PolledAchieves(v: View, log: seq<Report>, op: Op)
    requires Sane(v, log) && Booked(v) && op.Poll? && Fits(v, op.wr)
    ensures Achieved(v, log, op, Polled(v, op).view, Polled(v, op).report)
  {
    hide Count, Sent, Flushed, Fits;
    if !v.kind.Invalid? { SentFlushes(v, op.wr, op.extra); }
  }

  // A trigger that is on its way, or an event that the system reports, which it does
  // only if it has been turned on.
  predicate Possible(v: View, op: Op) {
    (op.Trigger? && v.triggers > 0) || (op.Poll? && (op.flags.read ==> v.reading) && (op.flags.write ==> v.writing))
  }

  ghost predicate AllPossible(v: View, ops: seq<Op>) {
    forall k :: 0 <= k < |ops| ==> Possible(Run(v, ops[..k]), ops[k]) && !Aborts(ops[k])
  }

  const TAKES_ALL := Poll(Flags(false, true, false, false), ReadAgain, WriteDone, true, true, Nothing, false)

  // From every state that can be reached, data that waits can be written by the events
  // that are on or coming, if the system takes it: nothing is lost, and a socket
  // that was closed here is gone then. Only a failed write puts an end to this.
  lemma CanBeFlushed(v0: View, ops: seq<Op>) returns (more: seq<Op>)
    requires Fresh(v0) && Waits(Run(v0, ops)) && Run(v0, ops).kind != HalfCloseWrite
    ensures var v := Run(v0, ops);
            var r := Run(v, more);
            && AllPossible(v, more) && !Waits(r)
            && r.written == v.written + v.listed && r.lost == v.lost && r.accepted == v.accepted
            && (v.closing ==> r.kind == Invalid)
  {
    hide Step, Sane, Booked, Run, AllPossible;
    RunSane(v0, ops);
    var v := Run(v0, ops);
    if v.writing {
      more := WritingFlushes(v);
    } else {
      var first := Op.Trigger(true);
      var w := Step(v, first).view;
      TriggerTurnsOn(v);
      StepBooked(v, first);
      more := WritingFlushes(w);
      FirstThen(v, first, more);
      more := [first] + more;
    }
  }

  lemma TriggerTurnsOn(v: View)
    requires Booked(v) && Waits(v) && !v.writing && v.kind != HalfCloseWrite
    ensures var w := Step(v, Op.Trigger(true)).view;
            w == v.(triggers := v.triggers - 1, writing := true) && Possible(v, Op.Trigger(true))
  {
  }

  lemma WritingFlushes(v: View) returns (more: seq<Op>)
    requires Booked(v) && Waits(v) && v.writing && v.kind != HalfCloseWrite
    ensures var r := Run(v, more);
            && AllPossible(v, more) && !Waits(r)
            && r.written == v.written + v.listed && r.lost == v.lost && r.accepted == v.accepted
            && (v.closing ==> r.kind == Invalid)
  {
    hide Run, AllPossible;
    var w := Step(v, TAKES_ALL).view;
    NothingMore(w);
    NothingMore(Step(w, TAKES_ALL).view);
    FirstThen(v, TAKES_ALL, []);
    assert [TAKES_ALL] + [] == [TAKES_ALL];
    more := [TAKES_ALL];
    if v.kind.Connecting? {
      FirstThen(w, TAKES_ALL, []);
      FirstThen(v, TAKES_ALL, [TAKES_ALL]);
      more := [TAKES_ALL] + [TAKES_ALL];
    }
  }

  lemma NothingMore(v: View)
    ensures AllPossible(v, []) && Run(v, []) == v
  {
  }

  // One operation, and then others.
  lemma FirstThen(v: View, op: Op, ops: seq<Op>)
    requires Possible(v, op) && !Aborts(op) && AllPossible(Step(v, op).view, ops)
    ensures AllPossible(v, [op] + ops) && Run(v, [op] + ops) == Run(Step(v, op).view, ops)
  {
    hide Step, Possible, Aborts;
    var all := [op] + ops;
    RunFirst(v, op, ops);
    forall k | 0 <= k < |all| ensures Possible(Run(v, all[..k]), all[k]) && !Aborts(all[k]) {
      if k > 0 {
        assert all[..k] == [op] + ops[..k - 1] && all[k] == ops[k - 1];
        RunFirst(v, op, ops[..k - 1]);
      }
    }
  }

  lemma {:induction false} RunFirst(v: View, op: Op, ops: seq<Op>)
    ensures Run(v, [op] + ops) == Run(Step(v, op).view, ops)
    decreases |ops|
  {
    hide Step;
    if ops == [] {
      assert [op] + ops == [op] && [op][..0] == [];
    } else {
      var n := |ops| - 1;
      RunFirst(v, op, ops[..n]);
      assert ([op] + ops)[..n + 1] == [op] + ops[..n];
    }
  }

  // -------------------------------------------------------------------------
  // The socket
  // -------------------------------------------------------------------------

  class Socket {
    var kind: Kind
    var closing: bool
    var reading: bool
    var writing: bool
    var pending: nat
    var rest: bool
    var listed: nat
    var sending: nat
    var triggers: nat
    var written: nat
    ghost var accepted: nat
    ghost var lost: nat
    ghost var log: seq<Report>   // what has been reported

    ghost function Now(): View
      reads this
    {
      View(kind, closing, reading, writing, pending, rest, listed, sending, triggers, accepted, written, lost)
    }

    ghost predicate Valid()
      reads this
    {
      Sane(Now(), log) && Booked(Now())
    }

    // `new_fd`
    constructor (kind: Kind, reading: bool, writing: bool)
      requires kind in {PListen, Connecting, Connected, PAccept, Bind}
      ensures Valid() && Fresh(Now()) && log == []
      ensures this.kind == kind && this.reading == reading && this.writing == writing
    {
      hide Sane, Booked;
      this.kind, this.reading, this.writing := kind, reading, writing;
      closing, pending, rest, listed, sending, triggers := false, 0, false, 0, 0, 0;
      written, accepted, lost, log := 0, 0, 0, [];
      new;
      FreshSane(Now());
    }

    // `nomore_sending_data`
    predicate NoMoreSendingData()
      reads this
    {
      (pending == 0 && !rest && sending == 0) || kind == HalfCloseWrite
    }

    // `force_close`
    method ForceClose()
      modifies this`kind, this`pending, this`rest, this`listed, this`lost
      ensures Now() == ForceClosed(old(Now()))
    {
      if kind == Invalid { return; }
      lost := lost + listed;
      pending, rest, listed := 0, false, 0;
      kind := Invalid;
    }

    // `close_read`
    method CloseRead()
      modifies this`kind, this`reading
      ensures Now() == ReadClosed(old(Now()))
    {
      kind := HalfCloseRead;
      reading := false;
    }

    // `close_write`
    method CloseWrite() returns (r: Report)
      modifies this`kind, this`writing, this`pending, this`rest, this`listed, this`lost
      ensures Outcome(Now(), r) == WriteClosed(old(Now()))
    {
      if closing {
        ForceClose();
        return Nothing;
      }
      if kind == HalfCloseRead {
        ForceClose();
        return Nothing;
      }
      if kind == HalfCloseWrite { return Nothing; }
      kind := HalfCloseWrite;
      writing := false;
      return WriteError;
    }

    // `close_socket`: the close is reported if and only if the end of the socket has
    // not been reported. What waits is lost only on shutdown, or after a failed
    // write; otherwise the socket stays to send it, and is not read from.
    method Close(shutdown: bool) returns (r: Report)
      requires Valid()
      modifies this
      ensures Valid() && log == old(log) + [r] && Outcome(Now(), r) == Step(old(Now()), CloseSocket(shutdown))
      ensures r == if Ends(old(log)) == 0 then Report.Close else Nothing
      ensures kind == Invalid || (kind == HalfCloseRead && closing && !reading && (Waits(Now()) || sending > 0))
      ensures !shutdown && old(kind) != HalfCloseWrite ==> lost == old(lost)
    {
      hide Count;
      StepSane(Now(), log, CloseSocket(shutdown));
      StepBooked(Now(), CloseSocket(shutdown));
      if kind == Invalid {
        r := Nothing;
      } else {
        var shutdownRead := kind == HalfCloseRead;
        if shutdown || NoMoreSendingData() {
          r := if shutdownRead then Nothing else Report.Close;
          ForceClose();
        } else {
          closing := true;
          r := Nothing;
          if !shutdownRead {
            CloseRead();
            r := Report.Close;
          }
        }
      }
      log := log + [r];
    }

    // `forward_message_tcp`: data, and the end of the stream, are reported if and
    // only if the end of the socket has not been reported. Unless a write has
    // failed nothing is lost, so data can be sent after the remote side has ended.
    method Forward(rd: ReadResult) returns (r: Report)
      requires Valid() && kind != Invalid
      modifies this
      ensures Valid() && log == old(log) + [r] && Outcome(Now(), r) == Forwarded(old(Now()), rd)
      ensures rd == ReadSome ==> r == if Ends(old(log)) == 0 then Data else Nothing
      ensures rd == ReadEof ==> r == if Ends(old(log)) == 0 then Report.Close else Nothing
      ensures old(kind) != HalfCloseWrite ==> lost == old(lost)
    {
      hide Count;
      OneMore(Now(), log, Forwarded(Now(), rd).report);
      match rd {
        case ReadAgain => r := Nothing;
        case ReadFailed => r := Error;
        case ReadEof =>
          if closing {
            if NoMoreSendingData() { ForceClose(); }
            r := Nothing;
          } else if kind == HalfCloseRead {
            r := Nothing;
          } else {
            if kind == HalfCloseWrite { ForceClose(); } else { CloseRead(); }
            r := Report.Close;
          }
        case ReadSome =>
          r := if kind == HalfCloseRead then Nothing else Data;
      }
      log := log + [r];
    }

    // What `send_buffer` does to the state, when it gets the lock. A failed write is
    // reported only if no earlier one and no end was, and keeps the socket until
    // the other side ends it, unless it has been closed already. A socket that is
    // closing ends, with nothing lost, when all is written.
    method SendBuffer(w: WriteResult, extra: Report) returns (r: Report)
      requires Valid() && kind !in {Invalid, Connecting, Listen} && Fits(Now(), w)
      modifies this
      ensures Valid() && log == old(log) + [r] && Outcome(Now(), r) == Sent(old(Now()), w, extra)
      ensures !w.WriteFailed? ==> lost == old(lost) && (w.WriteDone? ==> listed == 0 && (old(closing) ==> kind == Invalid))
      ensures w.WriteFailed? ==>
                (r == WriteError <==> Ends(old(log)) == 0 && Count(old(log), WriteError) == 0)
                && (kind == Invalid <==> Ends(old(log)) == 1)
    {
      hide Sane, Booked, Count, Ends;
      SentSane(Now(), log, w, extra);
      SentBooked(Now(), w, extra);
      match w {
        case WriteAgain(buffers, bytes) =>
          SendList(buffers, bytes);
          r := Nothing;
        case WriteFailed(buffers, bytes) =>
          SendList(buffers, bytes);
          r := CloseWrite();
        case WriteDone =>
          SendList(0, 0);
          if closing {
            ForceClose();
            r := Nothing;
          } else {
            writing := false;
            r := if extra == Error || extra == Warning then extra else Nothing;
          }
      }
      log := log + [r];
    }

    // The rest of a direct write goes to the lists, and these are written as far
    // as the system takes them.
    method SendList(buffers: nat, bytes: nat)
      requires bytes <= listed
      modifies this`pending, this`rest, this`listed, this`written
      ensures Now() == Wrote(Merged(old(Now())), buffers, bytes)
    {
      if rest {
        rest := false;
        pending := pending + 1;
      }
      pending, listed, written := buffers, bytes, written + listed - bytes;
    }

    // `report_connect`: the socket is connected, or refused and gone; what was to
    // be sent meanwhile is lost only then.
    method ReportConnect(ok: bool, enabled: bool) returns (r: Report)
      requires Valid() && kind == Connecting
      modifies this
      ensures Valid() && log == old(log) + [r] && Outcome(Now(), r) == ConnectDone(old(Now()), ok, enabled)
      ensures (r == Open && kind == Connected && lost == old(lost)) || (r == Refused && kind == Invalid)
      ensures ok && (enabled || Waits(old(Now()))) ==> r == Open
    {
      hide Count;
      OneMore(Now(), log, ConnectDone(Now(), ok, enabled).report);
      if !ok {
        ForceClose();
        r := Refused;
      } else {
        kind := Connected;
        r := Open;
        if NoMoreSendingData() {
          var on := writing;
          writing := false;
          if on && !enabled {
            ForceClose();
            r := Refused;
          }
        }
      }
      log := log + [r];
    }

    // The switch in `socket_server_poll`. An end is reported only once, a socket that
    // is gone stays so, and every event does what it is for.
    method Dispatch(op: Op) returns (r: Report)
      requires Valid() && op.Poll? && Fits(Now(), op.wr)
      modifies this
      ensures Valid() && log == old(log) + [r] && Outcome(Now(), r) == Polled(old(Now()), op)
      ensures IsEnd(r) ==> Ends(old(log)) == 0
      ensures Achieved(old(Now()), old(log), op, Now(), r)
    {
      hide Sane, Booked, Count, Sent, Forwarded, ConnectDone, RemoteGone, Fits, Achieved;
      PolledAchieves(Now(), log, op);
      PolledSane(Now(), log, op);
      PolledBooked(Now(), op);
      r := Nothing;
      match kind {
        case Connecting => r := ReportConnect(op.ok, op.enabled);
        case Listen => Tell(r);
        case Invalid => Tell(r);
        case _ =>
          if op.flags.read {
            r := Forward(op.rd);
          } else if op.flags.write && !op.locked {
            r := SendBuffer(op.wr, op.extra);
          } else if op.flags.write {
            Tell(r);
          } else if op.flags.error {
            r := Error;
            Tell(r);
          } else if op.flags.eof {
            r := RemoteEnd();
          } else {
            Tell(r);
          }
      }
    }

    // The eof event.
    method RemoteEnd() returns (r: Report)
      requires Valid() && kind != Invalid
      modifies this
      ensures Valid() && log == old(log) + [r] && Outcome(Now(), r) == RemoteGone(old(Now()))
      ensures kind == Invalid && r == if Ends(old(log)) == 0 then Report.Close else Nothing
    {
      hide Count;
      OneMore(Now(), log, RemoteGone(Now()).report);
      var halfclose := kind == HalfCloseRead;
      ForceClose();
      r := if halfclose then Nothing else Report.Close;
      log := log + [r];
    }

    // Something is reported that changes nothing.
    method Tell(r: Report)
      requires Valid() && r in {Nothing, Error}
      modifies this`log
      ensures Valid() && Now() == old(Now()) && log == old(log) + [r]
    {
      hide Count;
      OneMore(Now(), log, r);
      log := log + [r];
    }

    // `send_socket` and `dec_sending_ref`: the request is accepted whole or
    // dropped, and it is dropped only if the socket is not open for writing; what
    // waits will be looked at.
    method SendRequest(size: nat, enabled: bool, warn: bool) returns (r: Report)
      requires Valid() && sending > 0
      modifies this
      ensures Valid() && log == old(log) + [r] && Outcome(Now(), r) == Step(old(Now()), Request(size, enabled, warn))
      ensures if closing || TakesNoData(kind) then accepted == old(accepted)
              else accepted == old(accepted) + size && Waits(Now()) && (writing || triggers > 0)
    {
      hide Count, Ends, Sane, Polled, Booked, Appended;
      Accepts(Now(), size, enabled, warn);
      StepSane(Now(), log, Request(size, enabled, warn));
      StepBooked(Now(), Request(size, enabled, warn));
      sending := sending - 1;
      r := Nothing;
      if !TakesNoData(kind) && !closing {
        var failed := pending == 0 && !writing && !enabled;
        Append(size);
        r := if failed then Error else if warn then Warning else Nothing;
      }
      log := log + [r];
    }

    // `append_sendbuffer`: the write events go on with the first buffer.
    method Append(size: nat)
      modifies this`pending, this`listed, this`accepted, this`writing
      ensures Now() == Appended(old(Now()), size)
    {
      if pending == 0 { writing := true; }
      pending, listed, accepted := pending + 1, listed + size, accepted + size;
    }

    // `resume_socket`: an error if the end has been reported. Otherwise the socket is
    // read from, and one that was waiting for this is connected or listens.
    method ResumeReading(enabled: bool) returns (r: Report)
      requires Valid()
      modifies this
      ensures Valid() && log == old(log) + [r] && Outcome(Now(), r) == Step(old(Now()), Resume(enabled))
      ensures Ends(old(log)) == 1 ==> r == Error && Now() == old(Now())
      ensures Ends(old(log)) == 0 ==> reading && (r == Error <==> !enabled && !old(reading))
      ensures r == Open <==> Ends(old(log)) == 0 && r != Error && old(kind) in {PAccept, PListen, Connected}
      ensures r == Open && old(kind) != PListen ==> kind == Connected
      ensures r == Open && old(kind) == PListen ==> kind == Listen
    {
      hide Count, Polled;
      StepSane(Now(), log, Resume(enabled));
      StepBooked(Now(), Resume(enabled));
      r := Error;
      if kind != Invalid && kind != HalfCloseRead {
        var on := reading;
        reading := true;
        if enabled || on {
          r := Open;
          if kind == PAccept {
            kind := Connected;
          } else if kind == PListen {
            kind := Listen;
          } else if kind != Connected {
            r := Nothing;
          }
        }
      }
      log := log + [r];
    }

    // `pause_socket`: the socket is not read from.
    method PauseReading(enabled: bool) returns (r: Report)
      requires Valid()
      modifies this
      ensures Valid() && log == old(log) + [r] && Outcome(Now(), r) == Step(old(Now()), Pause(enabled))
      ensures kind == old(kind) && (kind != Invalid ==> !reading)
      ensures r == Error <==> kind != Invalid && !enabled && old(reading)
    {
      hide Count, Polled;
      StepSane(Now(), log, Pause(enabled));
      StepBooked(Now(), Pause(enabled));
      r := Nothing;
      if kind != Invalid {
        if reading && !enabled { r := Error; }
        reading := false;
      }
      log := log + [r];
    }

    // `trigger_write`: the write events are turned on for what a direct write left.
    method TriggerWrite(enabled: bool) returns (r: Report)
      requires Valid() && triggers > 0
      modifies this
      ensures Valid() && log == old(log) + [r] && Outcome(Now(), r) == Step(old(Now()), Op.Trigger(enabled))
      ensures kind == old(kind) && (kind != Invalid ==> writing)
      ensures r == Error <==> kind != Invalid && !enabled && !old(writing)
    {
      hide Count, Polled;
      StepSane(Now(), log, Op.Trigger(enabled));
      StepBooked(Now(), Op.Trigger(enabled));
      triggers := triggers - 1;
      r := Nothing;
      if kind != Invalid {
        if !writing && !enabled { r := Error; }
        writing := true;
      }
      log := log + [r];
    }

    // The direct write of `socket_server_send`: it is made only if nothing waits or
    // is on its way, and if something is left the write events will be turned on.
    method WriteDirect(size: nat, n: nat) returns (ok: bool)
      requires Valid() && n <= size
      modifies this
      ensures Valid() && log == old(log)
      ensures ok == Direct(old(Now()))
      ensures Now() == if ok then DirectSent(old(Now()), size, n) else old(Now())
      ensures ok && n < size ==> Waits(Now()) && triggers > 0
    {
      hide Count;
      StepBooked(Now(), SendDirect(size, n));
      ok := kind == Connected && !closing && NoMoreSendingData();
      if ok {
        accepted, written := accepted + size, written + n;
        if n < size { rest, listed, triggers := true, listed + size - n, triggers + 1; }
      }
    }
  }
}
