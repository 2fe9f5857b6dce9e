/**
 What the calls of an application do, from outside and from inside its callbacks: what a write sends
 and queues at once, when the drain is reported, and what was written in all.
 */
module WriteCalls {
  import opened Types
  import opened WriteSpec
  import opened WriteProofs
  import opened WriteProgress

  // ---------------------------------------------------------------- one write

  /** On an empty queue an accepting kernel gets the front of the message at once and the rest is
      queued; otherwise all of it is queued, and nothing is sent. */
  ghost predicate Answered(sock: Socket, s: State, t: State, op: Op)
    requires op.Write? && !(op.hasSid && op.sid < 0)
  {
    if s.queue == [] && op.data != [] && op.reply.Accepted? then
      var k := Share(sock, |op.data|, op.reply.n);
      && Log(t.history) == Log(s.history) + [Part(sock, Message(Stream(sock, op), op.unordered, op.data), k)]
      && Contents(t.queue) == op.data[k..]
    else Log(t.history) == Log(s.history) && Contents(t.queue) == Contents(s.queue) + op.data
  }

  lemma DirectTakes(sock: Socket, s: State, m: Message, n: nat)
    requires s.queue == [] && m.data != []
    ensures var k := Share(sock, |m.data|, n);
            var t := Direct(sock, s, m, n);
            Log(t.history) == Log(s.history) + [Part(sock, m, k)] && Contents(t.queue) == m.data[k..]
  {
    var k := Share(sock, |m.data|, n);
    var (x, q') := SendHead(sock, [m], n);
    DirectIsSendHead(sock, s, m, n);
    SendIsPart(sock, [m], n);
    LogSnoc(s.history, Sent(x));
    LogSnoc(s.history + [Sent(x)], Wrote(m));
    RestContents(m, k);
    assert q' == if m.data[k..] == [] then [] else [m.(data := m.data[k..])];
  }

  lemma RestContents(m: Message, k: nat)
    requires k <= |m.data|
    ensures Contents(if m.data[k..] == [] then [] else [m.(data := m.data[k..])]) == m.data[k..]
  {
    ContentsSnoc([], m.(data := m.data[k..]));
    assert [] + [m.(data := m.data[k..])] == [m.(data := m.data[k..])] && [] + m.data[k..] == m.data[k..];
  }

  lemma BufferTakes(sock: Socket, s: State, m: Message)
    requires Live(s.queue)
    ensures var t := Buffer(sock, s, m, m);
            Log(t.history) == Log(s.history) && Contents(t.queue) == Contents(s.queue) + m.data
  {
    LogSnoc(s.history, Wrote(m));
    FillConserves(sock, s.queue, m);
  }

  /** A write that is not refused, call by call; and what one that is refused leaves behind. */
  lemma WriteEffect(sock: Socket, s: State, op: Op)
    requires Inv(sock, s) && op.Write?
    ensures var t := Step(sock, s, App(op));
            && (if Refused(sock, s, op) then t.queue == s.queue && Log(t.history) == Log(s.history)
                else Answered(sock, s, t, op))
            && t.notify && t.onWritable == s.onWritable && t.onAllWritten == s.onAllWritten
            && (t.closing <==> s.closing || (op.reply == Failed(true) && DoWrite(sock, s, op).1 == IoError))
  {
    WriteCodes(sock, s, op);
    LogSnoc(s.history, Called);
    if !Refused(sock, s, op) {
      var m, b := Built(sock, op), Begin(s);
      BuiltIs(sock, op);
      if s.queue == [] && op.data != [] && op.reply.Accepted? {
        DirectTakes(sock, b, m, op.reply.n);
      } else {
        BufferTakes(sock, b, m);
      }
    }
  }

  /** A close call is remembered; it shuts the transport down at once if and only if nothing is queued. */
  lemma CloseEffect(sock: Socket, s: State)
    requires Inv(sock, s)
    ensures var t := Step(sock, s, App(Close));
            && t.closing && t == s.(closing := true, history := t.history)
            && t.history == s.history + if s.queue == [] then [CloseCalled, Shutdown] else [CloseCalled]
  {
    assert (s.history + [CloseCalled]) + [Shutdown] == s.history + [CloseCalled, Shutdown];
  }

  // ---------------------------------------------------------------- callbacks

  /** The flow at the end of a writable event, before the end of draining is looked at. */
  ghost function Middle(sock: Socket, s: State, replies: seq<Reply>, w: seq<Op>): State
    requires Live(s.queue)
  {
    if s.draining then FlushAll(sock, s, replies).0 else if s.onWritable then DoOps(sock, s, w) else s
  }

  /** The drain is reported to the application, which may make calls then. */
  ghost predicate Reporting(s: State) { !s.draining && !s.closing && s.onAllWritten && s.notify }

  ghost function Told(s: State): State { s.(notify := false, history := s.history + [AllWritten]) }

  lemma WritableEnds(sock: Socket, s: State, replies: seq<Reply>, w: seq<Op>, a: seq<Op>)
    requires Inv(sock, s)
    ensures var mid := Middle(sock, s, replies, w);
            Step(sock, s, Writable(replies, w, a)) ==
            if Reporting(mid) then DoOps(sock, Told(mid), a)
            else if !mid.draining && mid.closing then mid.(history := mid.history + [Shutdown])
            else mid
  {
  }

  function Reports(h: seq<Entry>): nat {
    if h == [] then 0 else Reports(h[..|h| - 1]) + if h[|h| - 1].AllWritten? then 1 else 0
  }

  lemma ReportsSnoc(h: seq<Entry>, e: Entry)
    ensures Reports(h + [e]) == Reports(h) + if e.AllWritten? then 1 else 0
  {
    assert (h + [e])[..|h|] == h;
  }

  lemma DeliverSilent(sock: Socket, s: State, m: Message, reply: Reply)
    ensures Reports(Deliver(sock, s, m, reply).0.history) == Reports(s.history)
  {
    ReportsSnoc(s.history, Wrote(m));
    if s.queue == [] && m.data != [] && reply.Accepted? {
      var len := sock.Offer(|m.data|);
      var x := Emit(sock, m, len, Taken(reply.n, len));
      ReportsSnoc(s.history, Sent(x));
      ReportsSnoc(s.history + [Sent(x)], Wrote(m));
    }
  }

  lemma OpSilent(sock: Socket, s: State, op: Op)
    ensures Reports(DoOp(sock, s, op).history) == Reports(s.history)
  {
    match op
    case Write(_, _, _, _, _) =>
      ReportsSnoc(s.history, Called);
      if Rejected(sock, op).None? {
        DeliverSilent(sock, Begin(s), Built(sock, op), op.reply);
      }
    case Close =>
      ReportsSnoc(s.history, CloseCalled);
      ReportsSnoc(s.history + [CloseCalled], Shutdown);
    case SetOps(_, _) =>
  }

  lemma {:induction false} OpsSilent(sock: Socket, s: State, ops: seq<Op>)
    ensures Reports(DoOps(sock, s, ops).history) == Reports(s.history)
    decreases |ops|
  {
    if ops != [] {
      OpSilent(sock, s, ops[0]);
      OpsSilent(sock, DoOp(sock, s, ops[0]), ops[1..]);
    }
  }

  lemma {:induction false} FlushSilent(sock: Socket, s: State, replies: seq<Reply>)
    requires Live(s.queue)
    ensures var t := FlushAll(sock, s, replies).0;
            Reports(t.history) == Reports(s.history) && Written(t.history) == Written(s.history)
    decreases |replies|
  {
    if s.queue != [] && replies != [] && replies[0].Accepted? {
      var x := SendHead(sock, s.queue, replies[0].n).0;
      ReportsSnoc(s.history, Sent(x));
      LogSnoc(s.history, Sent(x));
      FlushSilent(sock, SendOne(sock, s, replies[0].n), replies[1..]);
    }
  }

  lemma EventReports(sock: Socket, s: State, replies: seq<Reply>, w: seq<Op>, a: seq<Op>)
    requires Inv(sock, s)
    ensures Reports(Step(sock, s, Writable(replies, w, a)).history)
            == Reports(s.history) + if Reporting(Middle(sock, s, replies, w)) then 1 else 0
  {
    var mid := Middle(sock, s, replies, w);
    assert Reports(mid.history) == Reports(s.history) by {
      if s.draining {
        FlushSilent(sock, s, replies);
      } else {
        OpsSilent(sock, s, w);
      }
    }
    WritableEnds(sock, s, replies, w, a);
    ReportsSnoc(mid.history, AllWritten);
    ReportsSnoc(mid.history, Shutdown);
    OpsSilent(sock, Told(mid), a);
  }

  /** All bytes that were queued in `s` have been sent in `t`. */
  ghost predicate AllOut(s: State, t: State) {
    Joined(Log(s.history)) + Contents(s.queue) <= Joined(Log(t.history))
  }

  lemma FlushAllOut(sock: Socket, s: State, replies: seq<Reply>, w: seq<Op>, a: seq<Op>)
    requires Inv(sock, s) && s.draining
    ensures AllOut(s, Step(sock, s, Writable(replies, w, a))) <==> FlushAll(sock, s, replies).0.queue == []
  {
    var t, mid := Step(sock, s, Writable(replies, w, a)), FlushAll(sock, s, replies).0;
    var sent := FlushSends(sock, s, replies);
    JoinedConcat(Log(s.history), sent);
    ContentsNonEmpty(mid.queue);
    if mid.queue == [] {
      assert Joined(sent) + [] == Joined(sent);
      FlushReaches(sock, s, replies, w, a);
      LogGrows(mid.history, t.history);
      JoinedGrows(Log(mid.history), Log(t.history));
    } else {
      assert |Joined(sent)| < |Contents(s.queue)|;
    }
  }

  /** A writable event reports the drain, once, if and only if the application wants to know, has made
      a call since the last report, is not closing, and everything queued is sent by the event. */
  lemma DrainReportedIff(sock: Socket, s: State, replies: seq<Reply>, w: seq<Op>, a: seq<Op>)
    requires Inv(sock, s) && (s.draining || !s.onWritable || w == [])
    ensures var t := Step(sock, s, Writable(replies, w, a));
            Reports(t.history) == Reports(s.history) +
              if s.onAllWritten && s.notify && !s.closing && AllOut(s, t) then 1 else 0
  {
    var t := Step(sock, s, Writable(replies, w, a));
    EventReports(sock, s, replies, w, a);
    if s.draining {
      var sent := FlushSends(sock, s, replies);
      FlushAllOut(sock, s, replies, w, a);
    } else {
      IdleGrows(sock, s, replies, w, a);
      LogGrows(s.history, t.history);
      JoinedGrows(Log(s.history), Log(t.history));
      assert Joined(Log(s.history)) + [] == Joined(Log(s.history));
    }
  }

  // ---------------------------------------------------------------- all that was written

  /** What one call adds to the written messages. */
  function CallWrites(sock: Socket, s: State, op: Op): seq<Message> {
    if op.Write? && op.data != [] && !Refused(sock, s, op)
    then [Message(Stream(sock, op), op.unordered, op.data)] else []
  }

  function CallsWrite(sock: Socket, s: State, ops: seq<Op>): seq<Message>
    decreases |ops|
  {
    if ops == [] then []
    else CallWrites(sock, s, ops[0]) + CallsWrite(sock, DoOp(sock, s, ops[0]), ops[1..])
  }

  /** What an event adds: its call, or the calls of the callbacks that it runs. */
  ghost function EventWrites(sock: Socket, s: State, e: Event): seq<Message>
    requires Live(s.queue)
  {
    match e
    case App(op) => CallWrites(sock, s, op)
    case Writable(replies, w, a) =>
      var mid := Middle(sock, s, replies, w);
      (if !s.draining && s.onWritable then CallsWrite(sock, s, w) else [])
      + (if Reporting(mid) then CallsWrite(sock, Told(mid), a) else [])
  }

  ghost function Accepted(sock: Socket, events: seq<Event>): seq<Message> {
    if events == [] then []
    else
      var n := |events| - 1;
      Accepted(sock, events[..n]) + EventWrites(sock, Run(sock, events[..n]), events[n])
  }

  lemma CallAdds(sock: Socket, s: State, op: Op)
    ensures Written(DoOp(sock, s, op).history) == Written(s.history) + CallWrites(sock, s, op)
  {
    match op
    case Write(_, _, _, _, _) =>
      if op.data != [] {
        RecordedIff(sock, s, op);
      } else {
        LogSnoc(s.history, Called);
        if Rejected(sock, op).None? {
          LogSnoc(Begin(s).history, Wrote(Built(sock, op)));
        }
      }
    case Close =>
      LogSnoc(s.history, CloseCalled);
      LogSnoc(s.history + [CloseCalled], Shutdown);
    case SetOps(_, _) =>
  }

  lemma {:induction false} CallsAdd(sock: Socket, s: State, ops: seq<Op>)
    ensures Written(DoOps(sock, s, ops).history) == Written(s.history) + CallsWrite(sock, s, ops)
    decreases |ops|
  {
    if ops != [] {
      var t := DoOp(sock, s, ops[0]);
      CallAdds(sock, s, ops[0]);
      CallsAdd(sock, t, ops[1..]);
      Assoc(Written(s.history), CallWrites(sock, s, ops[0]), CallsWrite(sock, t, ops[1..]));
    }
  }

  lemma Assoc(a: seq<Message>, b: seq<Message>, c: seq<Message>)
    ensures (a + b) + c == a + (b + c)
  {
  }

  lemma MiddleAdds(sock: Socket, s: State, replies: seq<Reply>, w: seq<Op>)
    requires Live(s.queue)
    ensures Written(Middle(sock, s, replies, w).history)
            == Written(s.history) + if !s.draining && s.onWritable then CallsWrite(sock, s, w) else []
  {
    if s.draining {
      FlushSilent(sock, s, replies);
    } else {
      CallsAdd(sock, s, w);
    }
  }

  lemma EndAdds(sock: Socket, mid: State, t: State, a: seq<Op>)
    requires t == if Reporting(mid) then DoOps(sock, Told(mid), a)
                  else if !mid.draining && mid.closing then mid.(history := mid.history + [Shutdown])
                  else mid
    ensures Written(t.history) == Written(mid.history) + if Reporting(mid) then CallsWrite(sock, Told(mid), a) else []
  {
    LogSnoc(mid.history, AllWritten);
    LogSnoc(mid.history, Shutdown);
    CallsAdd(sock, Told(mid), a);
  }

  lemma EventAdds(sock: Socket, s: State, e: Event)
    requires Inv(sock, s)
    ensures Written(Step(sock, s, e).history) == Written(s.history) + EventWrites(sock, s, e)
  {
    match e
    case App(op) => CallAdds(sock, s, op);
    case Writable(replies, w, a) =>
      var mid := Middle(sock, s, replies, w);
      MiddleAdds(sock, s, replies, w);
      WritableEnds(sock, s, replies, w, a);
      EndAdds(sock, mid, Step(sock, s, e), a);
      Assoc(Written(s.history),
            if !s.draining && s.onWritable then CallsWrite(sock, s, w) else [],
            if Reporting(mid) then CallsWrite(sock, Told(mid), a) else []);
  }

  /** In every run, the written messages are those of the calls that were not refused, in order, each
      with the caller's bytes; and the kernel log followed by the queue has exactly their bytes. */
  lemma {:induction false} WrittenIsAccepted(sock: Socket, events: seq<Event>)
    ensures var s := Run(sock, events);
            && Written(s.history) == Accepted(sock, events)
            && Joined(Log(s.history)) + Contents(s.queue) == Contents(Accepted(sock, events))
    decreases |events|
  {
    if events != [] {
      var n := |events| - 1;
      WrittenIsAccepted(sock, events[..n]);
      EventAdds(sock, Run(sock, events[..n]), events[n]);
    }
    WriteConservation(sock, events);
  }

  // ---------------------------------------------------------------- the application's handlers

  /** The calls that an event makes. */
  ghost function Calls(sock: Socket, s: State, e: Event): seq<Op>
    requires Live(s.queue)
  {
    match e
    case App(op) => [op]
    case Writable(replies, w, a) =>
      (if !s.draining && s.onWritable then w else []) + (if Reporting(Middle(sock, s, replies, w)) then a else [])
  }

  ghost function AllCalls(sock: Socket, events: seq<Event>): seq<Op> {
    if events == [] then []
    else
      var n := |events| - 1;
      AllCalls(sock, events[..n]) + Calls(sock, Run(sock, events[..n]), events[n])
  }

  /** The handlers that the last of these calls to set them has set. */
  function Handlers(ops: seq<Op>): (bool, bool) {
    if ops == [] then (false, false)
    else if ops[|ops| - 1].SetOps? then (ops[|ops| - 1].writable, ops[|ops| - 1].allWritten)
    else Handlers(ops[..|ops| - 1])
  }

  ghost predicate Sets(ops: seq<Op>) { exists i :: 0 <= i < |ops| && ops[i].SetOps? }

  lemma {:induction false} HandlersConcat(a: seq<Op>, b: seq<Op>)
    ensures Handlers(a + b) == if Sets(b) then Handlers(b) else Handlers(a)
    decreases |b|
  {
    if b == [] {
      assert a + b == a;
    } else {
      var n := |b| - 1;
      assert (a + b)[..|a + b| - 1] == a + b[..n];
      HandlersConcat(a, b[..n]);
      assert b == b[..n] + [b[n]];
      SetsConcat(b[..n], [b[n]]);
    }
  }

  /** The entries that calls leave in a history. */
  function Trace(h: seq<Entry>): seq<Entry> {
    if h == [] then []
    else
      var r := Trace(h[..|h| - 1]);
      if h[|h| - 1].Called? || h[|h| - 1].CloseCalled? then r + [h[|h| - 1]] else r
  }

  lemma TraceSnoc(h: seq<Entry>, e: Entry)
    ensures Trace(h + [e]) == if e.Called? || e.CloseCalled? then Trace(h) + [e] else Trace(h)
  {
    assert (h + [e])[..|h|] == h;
  }

  function MarkOf(op: Op): seq<Entry> {
    match op
    case Write(_, _, _, _, _) => [Called]
    case Close => [CloseCalled]
    case SetOps(_, _) => []
  }

  function Marks(ops: seq<Op>): seq<Entry> {
    if ops == [] then [] else MarkOf(ops[0]) + Marks(ops[1..])
  }

  lemma {:induction false} MarksConcat(a: seq<Op>, b: seq<Op>)
    ensures Marks(a + b) == Marks(a) + Marks(b)
    decreases |a|
  {
    if a == [] {
      assert a + b == b && [] + Marks(b) == Marks(b);
    } else {
      MarksConcat(a[1..], b);
      assert Marks(a + b) == MarkOf(a[0]) + Marks(a[1..] + b) by {
        assert (a + b)[0] == a[0] && (a + b)[1..] == a[1..] + b;
      }
      AssocEntries(MarkOf(a[0]), Marks(a[1..]), Marks(b));
    }
  }

  /** `t` is `s` after these calls, as far as handlers and the traces of calls go. */
  ghost predicate Did(s: State, t: State, ops: seq<Op>) {
    && Trace(t.history) == Trace(s.history) + Marks(ops)
    && (t.onWritable, t.onAllWritten) ==
       if Sets(ops) then Handlers(ops) else (s.onWritable, s.onAllWritten)
  }

  lemma DidTwice(s: State, t: State, u: State, a: seq<Op>, b: seq<Op>)
    requires Did(s, t, a) && Did(t, u, b)
    ensures Did(s, u, a + b)
  {
    var h, g := Trace(s.history), Trace(u.history);
    assert g == h + Marks(a + b) by {
      MarksConcat(a, b);
      AssocEntries(h, Marks(a), Marks(b));
    }
    HandlersConcat(a, b);
    SetsConcat(a, b);
  }

  lemma AssocEntries(a: seq<Entry>, b: seq<Entry>, c: seq<Entry>)
    ensures (a + b) + c == a + (b + c)
  {
  }

  lemma SetsConcat(a: seq<Op>, b: seq<Op>)
    ensures Sets(a + b) <==> Sets(a) || Sets(b)
  {
    if i :| 0 <= i < |a| && a[i].SetOps? {
      assert (a + b)[i].SetOps?;
    }
    if i :| 0 <= i < |b| && b[i].SetOps? {
      assert (a + b)[|a| + i].SetOps?;
    }
  }

  /** Entries that no call leaves, and no change of handlers. */
  lemma DidNothing(s: State, t: State)
    requires Trace(t.history) == Trace(s.history)
    requires t.onWritable == s.onWritable && t.onAllWritten == s.onAllWritten
    ensures Did(s, t, [])
  {
    assert Marks([]) == [] && Trace(s.history) + [] == Trace(s.history);
  }

  lemma MarkAlone(op: Op)
    ensures Marks([op]) == MarkOf(op)
  {
    assert [op][1..] == [] && MarkOf(op) + [] == MarkOf(op);
  }

  lemma DeliverDid(sock: Socket, s: State, m: Message, reply: Reply)
    ensures var t := Deliver(sock, s, m, reply).0;
            && Trace(t.history) == Trace(s.history)
            && t.onWritable == s.onWritable && t.onAllWritten == s.onAllWritten
  {
    var t := Deliver(sock, s, m, reply).0;
    if s.queue == [] && m.data != [] && reply.Accepted? {
      var len := sock.Offer(|m.data|);
      var x := Emit(sock, m, len, Taken(reply.n, len));
      assert t.history == (s.history + [Sent(x)]) + [Wrote(m)];
      TraceSnoc(s.history, Sent(x));
      TraceSnoc(s.history + [Sent(x)], Wrote(m));
    } else if t.history != s.history {
      assert t.history == s.history + [Wrote(m)];
      TraceSnoc(s.history, Wrote(m));
    }
  }

  lemma WriteDid(sock: Socket, s: State, op: Op)
    requires op.Write?
    ensures Did(s, DoOp(sock, s, op), [op])
  {
    MarkAlone(op);
    TraceSnoc(s.history, Called);
    var t := DoOp(sock, s, op);
    if Rejected(sock, op).None? {
      DeliverDid(sock, Begin(s), Built(sock, op), op.reply);
    }
    assert Trace(t.history) == Trace(s.history) + [Called];
    assert t.onWritable == s.onWritable && t.onAllWritten == s.onAllWritten;
  }

  lemma CloseDid(sock: Socket, s: State)
    ensures Did(s, DoOp(sock, s, Close), [Close])
  {
    MarkAlone(Close);
    TraceSnoc(s.history, CloseCalled);
    TraceSnoc(s.history + [CloseCalled], Shutdown);
    var h := DoOp(sock, s, Close).history;
    assert h == s.history + [CloseCalled] || h == s.history + [CloseCalled] + [Shutdown];
  }

  lemma OpDid(sock: Socket, s: State, op: Op)
    ensures Did(s, DoOp(sock, s, op), [op])
  {
    match op
    case Write(_, _, _, _, _) => WriteDid(sock, s, op);
    case Close => CloseDid(sock, s);
    case SetOps(_, _) =>
      MarkAlone(op);
      assert Trace(s.history) + [] == Trace(s.history);
      assert [op][0].SetOps?;
  }

  lemma {:induction false} OpsDid(sock: Socket, s: State, ops: seq<Op>)
    ensures Did(s, DoOps(sock, s, ops), ops)
    decreases |ops|
  {
    if ops != [] {
      var t := DoOp(sock, s, ops[0]);
      OpDid(sock, s, ops[0]);
      OpsDid(sock, t, ops[1..]);
      DidTwice(s, t, DoOps(sock, s, ops), [ops[0]], ops[1..]);
      assert [ops[0]] + ops[1..] == ops;
    }
  }

  lemma {:induction false} FlushDid(sock: Socket, s: State, replies: seq<Reply>)
    requires Live(s.queue)
    ensures var t := FlushAll(sock, s, replies).0;
            && Trace(t.history) == Trace(s.history)
            && t.onWritable == s.onWritable && t.onAllWritten == s.onAllWritten
    decreases |replies|
  {
    if s.queue != [] && replies != [] && replies[0].Accepted? {
      TraceSnoc(s.history, Sent(SendHead(sock, s.queue, replies[0].n).0));
      FlushDid(sock, SendOne(sock, s, replies[0].n), replies[1..]);
    }
  }

  lemma MiddleDid(sock: Socket, s: State, replies: seq<Reply>, w: seq<Op>)
    requires Live(s.queue)
    ensures Did(s, Middle(sock, s, replies, w), if !s.draining && s.onWritable then w else [])
  {
    if s.draining {
      FlushDid(sock, s, replies);
    } else if s.onWritable {
      OpsDid(sock, s, w);
    }
  }

  lemma EndDid(sock: Socket, mid: State, t: State, a: seq<Op>)
    requires t == if Reporting(mid) then DoOps(sock, Told(mid), a)
                  else if !mid.draining && mid.closing then mid.(history := mid.history + [Shutdown])
                  else mid
    ensures Did(mid, t, if Reporting(mid) then a else [])
  {
    TraceSnoc(mid.history, AllWritten);
    TraceSnoc(mid.history, Shutdown);
    if Reporting(mid) {
      DidNothing(mid, Told(mid));
      OpsDid(sock, Told(mid), a);
      DidTwice(mid, Told(mid), t, [], a);
      assert [] + a == a;
    }
  }

  lemma EventDid(sock: Socket, s: State, e: Event)
    requires Inv(sock, s)
    ensures Did(s, Step(sock, s, e), Calls(sock, s, e))
  {
    match e
    case App(op) => OpDid(sock, s, op);
    case Writable(replies, w, a) =>
      var t, mid := Step(sock, s, e), Middle(sock, s, replies, w);
      MiddleDid(sock, s, replies, w);
      WritableEnds(sock, s, replies, w, a);
      EndDid(sock, mid, t, a);
      DidTwice(s, mid, t, if !s.draining && s.onWritable then w else [], if Reporting(mid) then a else []);
  }

  /** In every run every call, from outside or from a callback that an event ran, has left its trace,
      and the handlers are those of the last call that set them. */
  lemma {:induction false} CallsCount(sock: Socket, events: seq<Event>)
    ensures var s := Run(sock, events);
            && Trace(s.history) == Marks(AllCalls(sock, events))
            && (s.onWritable, s.onAllWritten) == Handlers(AllCalls(sock, events))
    decreases |events|
  {
    if events != [] {
      var n := |events| - 1;
      CallsCount(sock, events[..n]);
      EventDid(sock, Run(sock, events[..n]), events[n]);
      var a, b := AllCalls(sock, events[..n]), Calls(sock, Run(sock, events[..n]), events[n]);
      MarksConcat(a, b);
      HandlersConcat(a, b);
    }
  }
}
