/**
 What every run of the write path keeps: no byte is lost, duplicated or reordered, SCTP
 messages stay whole, and shutdown and drain reports happen only on an empty queue.
 */
module WriteProofs {
  import opened Types
  import opened WriteSpec

  // ---------------------------------------------------------------- reading a history

  function Log(h: seq<Entry>): (r: seq<Segment>) {
    if h == [] then []
    else
      var e := h[|h| - 1];
      var r := Log(h[..|h| - 1]);
      if e.Sent? then r + [e.seg] else r
  }

  function Written(h: seq<Entry>): (r: seq<Message>) {
    if h == [] then []
    else
      var e := h[|h| - 1];
      var r := Written(h[..|h| - 1]);
      if e.Wrote? && e.msg.data != [] then r + [e.msg] else r
  }

  function Joined(log: seq<Segment>): seq<Byte> {
    if log == [] then [] else Joined(log[..|log| - 1]) + log[|log| - 1].data
  }

  function Contents(ms: seq<Message>): seq<Byte> {
    if ms == [] then [] else Contents(ms[..|ms| - 1]) + ms[|ms| - 1].data
  }

  lemma LogSnoc(h: seq<Entry>, e: Entry)
    ensures Log(h + [e]) == if e.Sent? then Log(h) + [e.seg] else Log(h)
    ensures Written(h + [e]) == if e.Wrote? && e.msg.data != [] then Written(h) + [e.msg] else Written(h)
  {
    assert (h + [e])[..|h|] == h;
  }

  lemma JoinedSnoc(log: seq<Segment>, x: Segment)
    ensures Joined(log + [x]) == Joined(log) + x.data
  {
    assert (log + [x])[..|log|] == log;
  }

  lemma ContentsSnoc(ms: seq<Message>, m: Message)
    ensures Contents(ms + [m]) == Contents(ms) + m.data
  {
    assert (ms + [m])[..|ms|] == ms;
  }

  lemma {:induction false} ContentsCons(m: Message, ms: seq<Message>)
    ensures Contents([m] + ms) == m.data + Contents(ms)
    decreases |ms|
  {
    if ms == [] {
      assert [m] + ms == [] + [m];
      ContentsSnoc([], m);
    } else {
      var n, front := |ms| - 1, ms[..|ms| - 1];
      ContentsCons(m, front);
      calc {
        Contents([m] + ms);
        { assert [m] + ms == ([m] + front) + [ms[n]]; }
        Contents(([m] + front) + [ms[n]]);
        { ContentsSnoc([m] + front, ms[n]); }
        Contents([m] + front) + ms[n].data;
        (m.data + Contents(front)) + ms[n].data;
        m.data + (Contents(front) + ms[n].data);
        m.data + Contents(ms);
      }
    }
  }

  lemma ContentsHead(q: seq<Message>)
    requires q != []
    ensures Contents(q) == q[0].data + Contents(q[1..])
  {
    assert q == [q[0]] + q[1..];
    ContentsCons(q[0], q[1..]);
  }

  // ---------------------------------------------------------------- cutting at EOR

  datatype Cut = Cut(frames: seq<seq<Segment>>, open: seq<Segment>)

  /** What a receiver reassembles: runs of segments, each closed by an effective EOR. */
  function CutAtEor(log: seq<Segment>): Cut {
    if log == [] then Cut([], [])
    else
      var c := CutAtEor(log[..|log| - 1]);
      var x := log[|log| - 1];
      if x.eor then Cut(c.frames + [c.open + [x]], []) else Cut(c.frames, c.open + [x])
  }

  lemma CutSnoc(log: seq<Segment>, x: Segment)
    ensures var c := CutAtEor(log);
            CutAtEor(log + [x]) ==
            if x.eor then Cut(c.frames + [c.open + [x]], []) else Cut(c.frames, c.open + [x])
  {
    assert (log + [x])[..|log|] == log;
  }

  /** Every segment of a run is labelled with the message's stream and order. */
  ghost predicate Tagged(segs: seq<Segment>, m: Message) {
    forall i :: 0 <= i < |segs| ==> segs[i].sid == m.sid && segs[i].unordered == m.unordered
  }

  ghost predicate Carries(segs: seq<Segment>, m: Message) {
    Tagged(segs, m) && Joined(segs) == m.data
  }

  /** The written messages are the closed frames, the head of the queue with what the open run has of
      it, and the rest of the queue. */
  ghost predicate FramedOk(c: Cut, queue: seq<Message>, written: seq<Message>) {
    var n := |c.frames|;
    && |written| == n + |queue|
    && (forall i :: 0 <= i < n ==> Carries(c.frames[i], written[i]))
    && (queue == [] ==> c.open == [])
    && (queue != [] ==> Tagged(c.open, queue[0]) && written[n] == queue[0].(data := Joined(c.open) + queue[0].data))
    && (forall i :: 1 <= i < |queue| ==> written[n + i] == queue[i])
  }

  // ---------------------------------------------------------------- the invariant

  /** Everything reported written by the end of `h` has been taken by the kernel. */
  ghost predicate Balanced(h: seq<Entry>) {
    Joined(Log(h)) == Contents(Written(h))
  }

  /** Shutdown and drain reports come only when nothing is left behind. */
  ghost predicate Quiet(h: seq<Entry>) {
    forall k :: 0 <= k < |h| && (h[k].Shutdown? || h[k].AllWritten?) ==> Balanced(h[..k])
  }

  ghost predicate CalledAfter(h: seq<Entry>, i: int) {
    exists m :: 0 <= m < |h| && i < m && h[m].Called?
  }

  /** Two drain reports are separated by a write call. */
  ghost predicate Spaced(h: seq<Entry>) {
    forall i, j :: 0 <= i < j < |h| && h[i].AllWritten? && h[j].AllWritten? ==> CalledAfter(h[..j], i)
  }

  /** A pending notification means a write call since the last report. */
  ghost predicate Armed(s: State) {
    forall i :: 0 <= i < |s.history| && s.history[i].AllWritten? && s.notify ==> CalledAfter(s.history, i)
  }

  /** Taken bytes followed by queued bytes are the written bytes, and frames match messages. */
  ghost predicate Conserved(sock: Socket, log: seq<Segment>, queue: seq<Message>, written: seq<Message>) {
    && Live(queue)
    && Joined(log) + Contents(queue) == Contents(written)
    && (sock.Framed() ==> FramedOk(CutAtEor(log), queue, written))
  }

  ghost predicate DataOk(sock: Socket, s: State) {
    && (s.draining <==> s.queue != [])
    && Conserved(sock, Log(s.history), s.queue, Written(s.history))
  }

  ghost predicate HistoryOk(s: State) {
    Quiet(s.history) && Spaced(s.history) && Armed(s)
  }

  ghost predicate Inv(sock: Socket, s: State) {
    DataOk(sock, s) && HistoryOk(s)
  }

  // ---------------------------------------------------------------- sends

  lemma Regroup(j: seq<Byte>, a: seq<Byte>, b: seq<Byte>, c: seq<Byte>)
    ensures (j + a) + (b + c) == j + ((a + b) + c)
  {
  }

  /** One accepted send moves at least one byte from the head of the queue to the log. */
  lemma SendConserves(sock: Socket, log: seq<Segment>, q: seq<Message>, n: nat)
    requires Live(q) && q != []
    ensures var (x, q') := SendHead(sock, q, n);
            Joined(log + [x]) + Contents(q') == Joined(log) + Contents(q) && |Contents(q')| < |Contents(q)|
  {
    var (x, q') := SendHead(sock, q, n);
    var rest := q[0].data[|x.data|..];
    assert Contents(q') == rest + Contents(q[1..]) by {
      if rest != [] {
        ContentsCons(q[0].(data := rest), q[1..]);
      }
    }
    assert q[0].data == x.data + rest;
    JoinedSnoc(log, x);
    ContentsHead(q);
    Regroup(Joined(log), x.data, rest, Contents(q[1..]));
  }

  lemma CarriesMore(open: seq<Segment>, x: Segment, m: Message)
    requires Tagged(open, m) && x.sid == m.sid && x.unordered == m.unordered && m.data == Joined(open) + x.data
    ensures Carries(open + [x], m)
  {
    JoinedSnoc(open, x);
  }

  /** A send that finishes the head closes its frame. */
  lemma CloseFrame(c: Cut, q: seq<Message>, x: Segment, written: seq<Message>)
    requires q != [] && FramedOk(c, q, written)
    requires x == Segment(q[0].sid, q[0].unordered, q[0].data, true)
    ensures FramedOk(Cut(c.frames + [c.open + [x]], []), q[1..], written)
  {
    var n, rest := |c.frames|, q[1..];
    CarriesMore(c.open, x, written[n]);
    if rest != [] {
      assert written[n + 1] == q[1] == rest[0];
      assert [] + rest[0].data == rest[0].data;
    }
    forall i | 1 <= i < |rest| ensures written[n + 1 + i] == rest[i] {
      var j := i + 1;
      assert rest[i] == q[j] && written[n + j] == q[j];
    }
  }

  /** A send that takes part of the head leaves its frame open. */
  lemma ExtendFrame(c: Cut, q: seq<Message>, x: Segment, rest: seq<Byte>, written: seq<Message>)
    requires q != [] && FramedOk(c, q, written) && q[0].data == x.data + rest
    requires x == Segment(q[0].sid, q[0].unordered, x.data, false)
    ensures FramedOk(Cut(c.frames, c.open + [x]), [q[0].(data := rest)] + q[1..], written)
  {
    var q', n := [q[0].(data := rest)] + q[1..], |c.frames|;
    SplitHead(c.open, x, rest);
    assert forall i :: 1 <= i < |q| ==> q'[i] == q[i];
    assert Tagged(c.open + [x], q'[0]);
    assert written[n] == q'[0].(data := Joined(c.open + [x]) + rest);
  }

  lemma SplitHead(open: seq<Segment>, x: Segment, rest: seq<Byte>)
    ensures Joined(open + [x]) + rest == Joined(open) + (x.data + rest)
  {
    JoinedSnoc(open, x);
  }

  /** One accepted send keeps the framing. */
  lemma SendFrames(sock: Socket, log: seq<Segment>, q: seq<Message>, n: nat, written: seq<Message>)
    requires sock.Framed() && Live(q) && q != [] && FramedOk(CutAtEor(log), q, written)
    ensures FramedOk(CutAtEor(log + [SendHead(sock, q, n).0]), SendHead(sock, q, n).1, written)
  {
    var x := SendHead(sock, q, n).0;
    var rest := q[0].data[|x.data|..];
    CutSnoc(log, x);
    assert q[0].data == x.data + rest;
    if rest == [] {
      assert x.data == q[0].data;
      CloseFrame(CutAtEor(log), q, x, written);
    } else {
      ExtendFrame(CutAtEor(log), q, x, rest, written);
    }
  }

  // ---------------------------------------------------------------- buffering

  /** Appending to the last TCP buffer. */
  lemma ExtendLast(q: seq<Message>, data: seq<Byte>)
    requires q != []
    ensures var n := |q| - 1;
            Contents(q[n := q[n].(data := q[n].data + data)]) == Contents(q) + data
  {
    var n := |q| - 1;
    var last := q[n].(data := q[n].data + data);
    assert q[n := last] == q[..n] + [last];
    ContentsSnoc(q[..n], last);
    assert Contents(q[..n]) + (q[n].data + data) == (Contents(q[..n]) + q[n].data) + data;
  }

  lemma FillConserves(sock: Socket, q: seq<Message>, m: Message)
    requires Live(q)
    ensures Live(Fill(sock, q, m))
    ensures Contents(Fill(sock, q, m)) == Contents(q) + m.data
    ensures Fill(sock, q, m) == [] <==> q == [] && m.data == []
  {
    if m.data != [] && sock.stack == TCP && q != [] {
      ExtendLast(q, m.data);
    } else {
      ContentsSnoc(q, m);
    }
  }

  lemma FillFrames(c: Cut, q: seq<Message>, m: Message, written: seq<Message>)
    requires FramedOk(c, q, written) && m.data != []
    ensures FramedOk(c, q + [m], written + [m])
  {
    if q == [] {
      assert [] + m.data == m.data;
    }
  }

  lemma FillKeeps(sock: Socket, log: seq<Segment>, q: seq<Message>, written: seq<Message>, m: Message)
    requires Conserved(sock, log, q, written)
    ensures Conserved(sock, log, Fill(sock, q, m), if m.data == [] then written else written + [m])
  {
    FillConserves(sock, q, m);
    ContentsSnoc(written, m);
    assert Joined(log) + (Contents(q) + m.data) == (Joined(log) + Contents(q)) + m.data;
    if sock.Framed() && m.data != [] {
      FillFrames(CutAtEor(log), q, m, written);
    }
  }

  lemma SendKeeps(sock: Socket, log: seq<Segment>, q: seq<Message>, written: seq<Message>, n: nat)
    requires Conserved(sock, log, q, written) && q != []
    ensures Conserved(sock, log + [SendHead(sock, q, n).0], SendHead(sock, q, n).1, written)
  {
    SendConserves(sock, log, q, n);
    if sock.Framed() {
      SendFrames(sock, log, q, n, written);
    }
  }

  // ---------------------------------------------------------------- histories

  ghost predicate Plain(e: Entry) { !e.Shutdown? && !e.AllWritten? }

  /** Sends, calls and write reports cannot break what was true of the history before. */
  lemma AppendPlain(h: seq<Entry>, t: seq<Entry>)
    requires Quiet(h) && Spaced(h)
    requires forall i :: 0 <= i < |t| ==> Plain(t[i])
    ensures Quiet(h + t) && Spaced(h + t)
    ensures forall i :: CalledAfter(h, i) ==> CalledAfter(h + t, i)
  {
    var g := h + t;
    forall k | 0 <= k < |g| && !Plain(g[k])
      ensures k < |h| && g[k] == h[k] && g[..k] == h[..k]
    {
    }
    forall i | CalledAfter(h, i) ensures CalledAfter(g, i) {
      var m :| 0 <= m < |h| && i < m && h[m].Called?;
      assert g[m].Called?;
    }
  }

  lemma AppendCall(h: seq<Entry>, i: int)
    requires i < |h|
    ensures CalledAfter(h + [Called], i)
  {
    assert (h + [Called])[|h|].Called?;
  }

  /** A shutdown may be recorded when nothing is queued. */
  lemma AppendShutdown(h: seq<Entry>)
    requires Quiet(h) && Spaced(h) && Balanced(h)
    ensures Quiet(h + [Shutdown]) && Spaced(h + [Shutdown])
    ensures forall i :: CalledAfter(h, i) ==> CalledAfter(h + [Shutdown], i)
  {
    var g := h + [Shutdown];
    forall k | 0 <= k < |g| && (g[k].Shutdown? || g[k].AllWritten?) ensures Balanced(g[..k]) {
      if k < |h| { assert g[..k] == h[..k]; } else { assert g[..k] == h; }
    }
    forall i, j | 0 <= i < j < |g| && g[i].AllWritten? && g[j].AllWritten? ensures CalledAfter(g[..j], i) {
      assert g[..j] == h[..j];
    }
    forall i | CalledAfter(h, i) ensures CalledAfter(g, i) {
      var m :| 0 <= m < |h| && i < m && h[m].Called?;
      assert g[m].Called?;
    }
  }

  /** A drain report may be recorded when nothing is queued and a call came since the last one. */
  lemma AppendReport(h: seq<Entry>)
    requires Quiet(h) && Spaced(h) && Balanced(h)
    requires forall i :: 0 <= i < |h| && h[i].AllWritten? ==> CalledAfter(h, i)
    ensures Quiet(h + [AllWritten]) && Spaced(h + [AllWritten])
  {
    var g := h + [AllWritten];
    forall k | 0 <= k < |g| && (g[k].Shutdown? || g[k].AllWritten?) ensures Balanced(g[..k]) {
      if k < |h| { assert g[..k] == h[..k]; } else { assert g[..k] == h; }
    }
    forall i, j | 0 <= i < j < |g| && g[i].AllWritten? && g[j].AllWritten? ensures CalledAfter(g[..j], i) {
      if j < |h| { assert g[..j] == h[..j]; } else { assert g[..j] == h; }
    }
  }

  // ---------------------------------------------------------------- steps

  /** A step that only appends calls, sends and write reports keeps the history in order. */
  lemma PlainKeeps(s: State, s': State, t: seq<Entry>)
    requires HistoryOk(s) && s'.history == s.history + t && s'.notify == s.notify
    requires forall i :: 0 <= i < |t| ==> Plain(t[i])
    ensures HistoryOk(s')
  {
    AppendPlain(s.history, t);
  }

  lemma CallKeeps(sock: Socket, s: State)
    requires Inv(sock, s)
    ensures Inv(sock, Begin(s))
  {
    LogSnoc(s.history, Called);
    AppendPlain(s.history, [Called]);
    forall i | 0 <= i < |s.history| ensures CalledAfter(s.history + [Called], i) {
      AppendCall(s.history, i);
    }
  }

  /** Buffering a whole message. */
  lemma BufferKeeps(sock: Socket, s: State, m: Message)
    requires Inv(sock, s)
    ensures Inv(sock, Buffer(sock, s, m, m))
  {
    LogSnoc(s.history, Wrote(m));
    PlainKeeps(s, Buffer(sock, s, m, m), [Wrote(m)]);
    FillKeeps(sock, Log(s.history), s.queue, Written(s.history), m);
  }

  /** A direct send is buffering the message and letting the kernel take part of it at once. */
  lemma DirectIsSendHead(sock: Socket, s: State, m: Message, n: nat)
    requires s.queue == [] && m.data != []
    ensures var (x, q') := SendHead(sock, [m], n);
            Direct(sock, s, m, n) ==
            s.(queue := q', draining := q' != [], history := (s.history + [Sent(x)]) + [Wrote(m)])
  {
    var rest := m.(data := m.data[|SendHead(sock, [m], n).0.data|..]);
    assert [m][1..] == [] && [rest] + [] == [] + [rest];
  }

  lemma DirectHistory(sock: Socket, s: State, m: Message, n: nat)
    requires HistoryOk(s) && s.queue == [] && m.data != []
    ensures HistoryOk(Direct(sock, s, m, n))
  {
    var x, t := SendHead(sock, [m], n).0, Direct(sock, s, m, n);
    DirectIsSendHead(sock, s, m, n);
    assert t.history == s.history + [Sent(x), Wrote(m)];
    PlainKeeps(s, t, [Sent(x), Wrote(m)]);
  }

  lemma DirectConserves(sock: Socket, log: seq<Segment>, written: seq<Message>, m: Message, n: nat)
    requires Conserved(sock, log, [], written) && m.data != []
    ensures var (x, q') := SendHead(sock, [m], n); Conserved(sock, log + [x], q', written + [m])
  {
    assert [] + [m] == [m];
    FillKeeps(sock, log, [], written, m);
    SendKeeps(sock, log, [m], written + [m], n);
  }

  lemma DirectKeeps(sock: Socket, s: State, m: Message, n: nat)
    requires Inv(sock, s) && s.queue == [] && m.data != []
    ensures Inv(sock, Direct(sock, s, m, n))
  {
    var h := s.history;
    var x := SendHead(sock, [m], n).0;
    DirectIsSendHead(sock, s, m, n);
    DirectHistory(sock, s, m, n);
    LogSnoc(h, Sent(x));
    LogSnoc(h + [Sent(x)], Wrote(m));
    DirectConserves(sock, Log(h), Written(h), m, n);
  }

  lemma WriteKeeps(sock: Socket, s: State, op: Op)
    requires Inv(sock, s) && op.Write?
    ensures Inv(sock, DoWrite(sock, s, op).0)
  {
    CallKeeps(sock, s);
    if !Rejected(sock, op).Some? {
      var m := Built(sock, op);
      if s.queue == [] && op.data != [] && op.reply.Accepted? {
        DirectKeeps(sock, Begin(s), m, op.reply.n);
      } else {
        BufferKeeps(sock, Begin(s), m);
      }
    }
  }

  lemma ShutdownKeeps(sock: Socket, s: State)
    requires Inv(sock, s)
    ensures Inv(sock, DoShutdown(s))
  {
    if !s.draining {
      LogSnoc(s.history, Shutdown);
      AppendShutdown(s.history);
    }
  }

  lemma CloseCallKeeps(sock: Socket, s: State)
    requires Inv(sock, s)
    ensures Inv(sock, s.(history := s.history + [CloseCalled]))
  {
    LogSnoc(s.history, CloseCalled);
    PlainKeeps(s, s.(history := s.history + [CloseCalled]), [CloseCalled]);
  }

  lemma {:induction false} OpsKeep(sock: Socket, s: State, ops: seq<Op>)
    requires Inv(sock, s)
    ensures Inv(sock, DoOps(sock, s, ops))
    decreases |ops|
  {
    if ops != [] {
      OpKeeps(sock, s, ops[0]);
      OpsKeep(sock, DoOp(sock, s, ops[0]), ops[1..]);
    }
  }

  lemma OpKeeps(sock: Socket, s: State, op: Op)
    requires Inv(sock, s)
    ensures Inv(sock, DoOp(sock, s, op))
  {
    match op
    case Write(_, _, _, _, _) => WriteKeeps(sock, s, op);
    case Close =>
      CloseCallKeeps(sock, s);
      ShutdownKeeps(sock, s.(history := s.history + [CloseCalled]));
    case SetOps(_, _) =>
  }

  /** What holds between two sends of a flush; the drain flag is settled at its end. */
  ghost predicate FlushInv(sock: Socket, s: State) {
    Conserved(sock, Log(s.history), s.queue, Written(s.history)) && HistoryOk(s)
  }

  lemma SendOneKeeps(sock: Socket, s: State, n: nat)
    requires FlushInv(sock, s) && s.queue != []
    ensures FlushInv(sock, SendOne(sock, s, n))
  {
    var x := SendHead(sock, s.queue, n).0;
    LogSnoc(s.history, Sent(x));
    PlainKeeps(s, SendOne(sock, s, n), [Sent(x)]);
    SendKeeps(sock, Log(s.history), s.queue, Written(s.history), n);
  }

  /** The loop goes on after an accepted send. */
  lemma FlushGoesOn(sock: Socket, s: State, replies: seq<Reply>)
    requires Live(s.queue) && s.queue != [] && replies != [] && replies[0].Accepted?
    ensures FlushAll(sock, s, replies) == FlushAll(sock, SendOne(sock, s, replies[0].n), replies[1..])
  {
  }

  /** Otherwise it leaves things as they are, but for the drain flag of an empty queue. */
  lemma FlushStays(sock: Socket, s: State, replies: seq<Reply>)
    requires Live(s.queue) && (s.queue == [] || replies == [] || !replies[0].Accepted?)
    ensures FlushAll(sock, s, replies).0 == if s.queue == [] then s.(draining := false) else s
  {
  }

  lemma DrainedKeeps(sock: Socket, s: State)
    requires FlushInv(sock, s)
    ensures FlushInv(sock, s.(draining := false))
  {
  }

  lemma {:induction false} FlushKeeps(sock: Socket, s: State, replies: seq<Reply>)
    requires FlushInv(sock, s)
    ensures FlushInv(sock, FlushAll(sock, s, replies).0)
    decreases |replies|
  {
    if s.queue != [] && replies != [] && replies[0].Accepted? {
      FlushGoesOn(sock, s, replies);
      SendOneKeeps(sock, s, replies[0].n);
      FlushKeeps(sock, SendOne(sock, s, replies[0].n), replies[1..]);
    } else {
      FlushStays(sock, s, replies);
      DrainedKeeps(sock, s);
    }
  }

  lemma AfterWritableKeeps(sock: Socket, s: State, inAllWritten: seq<Op>)
    requires Inv(sock, s)
    ensures Inv(sock, AfterWritable(sock, s, inAllWritten))
  {
    if !s.draining && s.closing {
      ShutdownKeeps(sock, s);
    } else if !s.draining && s.onAllWritten && s.notify {
      LogSnoc(s.history, AllWritten);
      AppendReport(s.history);
      OpsKeep(sock, s.(notify := false, history := s.history + [AllWritten]), inAllWritten);
    }
  }

  lemma DrainKeeps(sock: Socket, s: State, replies: seq<Reply>, a: seq<Op>)
    requires Inv(sock, s) && s.draining
    ensures Inv(sock, DoWritable(sock, s, replies, [], a))
  {
    FlushKeeps(sock, s, replies);
    var s1 := FlushAll(sock, s, replies).0;
    assert Inv(sock, s1);
    AfterWritableKeeps(sock, s1, a);
  }

  lemma IdleKeeps(sock: Socket, s: State, w: seq<Op>, a: seq<Op>)
    requires Inv(sock, s) && !s.draining
    ensures Inv(sock, DoWritable(sock, s, [], w, a))
  {
    if s.onWritable {
      OpsKeep(sock, s, w);
      AfterWritableKeeps(sock, DoOps(sock, s, w), a);
    } else {
      AfterWritableKeeps(sock, s, a);
    }
  }

  lemma StepKeeps(sock: Socket, s: State, e: Event)
    requires Inv(sock, s)
    ensures Inv(sock, Step(sock, s, e))
  {
    match e
    case App(op) => OpKeeps(sock, s, op);
    case Writable(replies, w, a) =>
      if s.draining {
        DrainKeeps(sock, s, replies, a);
      } else {
        IdleKeeps(sock, s, w, a);
      }
  }

  // ---------------------------------------------------------------- whole runs

  /** The state after any sequence of application calls and writable events. */
  ghost function Run(sock: Socket, events: seq<Event>): (s: State)
    ensures Inv(sock, s)
  {
    if events == [] then
      Fresh()
    else
      var n := |events| - 1;
      StepKeeps(sock, Run(sock, events[..n]), events[n]);
      Step(sock, Run(sock, events[..n]), events[n])
  }

  /** No run loses, repeats or reorders a byte. */
  lemma WriteConservation(sock: Socket, events: seq<Event>)
    ensures var s := Run(sock, events);
            && Joined(Log(s.history)) + Contents(s.queue) == Contents(Written(s.history))
            && Live(s.queue)
  {
    assert DataOk(sock, Run(sock, events));
  }

  /** The kernel log cut at effective EOR marks holds the first written messages, each whole, in order
      and on its own stream; the open run and the queue hold exactly the other ones. */
  ghost predicate Matched(c: Cut, queue: seq<Message>, w: seq<Message>) {
    && |w| == |c.frames| + |queue|
    && (forall i :: 0 <= i < |c.frames| ==> Carries(c.frames[i], w[i]))
    && (forall i :: 1 <= i < |queue| ==> w[|c.frames| + i] == queue[i])
    && (queue == [] ==> c.open == [])
    && (queue != [] ==>
          Tagged(c.open, w[|c.frames|]) && Joined(c.open) + queue[0].data == w[|c.frames|].data)
  }

  lemma FramesMatch(c: Cut, queue: seq<Message>, w: seq<Message>)
    requires FramedOk(c, queue, w)
    ensures Matched(c, queue, w)
  {
  }

  /** With explicit EOR a receiver that cuts at EOR gets exactly the written messages, in every run. */
  lemma MessageFraming(sock: Socket, events: seq<Event>)
    requires sock.Framed()
    ensures var s := Run(sock, events); Matched(CutAtEor(Log(s.history)), s.queue, Written(s.history))
  {
    var s := Run(sock, events);
    FramesMatch(CutAtEor(Log(s.history)), s.queue, Written(s.history));
  }

  /** In every run the flow drains exactly while data is queued, the transport is shut down only
      after all reported data was taken, and drain reports are separated by write calls. */
  lemma DrainSafety(sock: Socket, events: seq<Event>)
    ensures var s := Run(sock, events); var h := s.history;
            && (s.draining <==> s.queue != [])
            && (forall k :: 0 <= k < |h| && h[k].Shutdown? ==> Joined(Log(h[..k])) == Contents(Written(h[..k])))
            && (forall k :: 0 <= k < |h| && h[k].AllWritten? ==> Joined(Log(h[..k])) == Contents(Written(h[..k])))
            && (forall i, j :: 0 <= i < j < |h| && h[i].AllWritten? && h[j].AllWritten? ==>
                  exists m :: i < m < j && h[m].Called?)
  {
    var h := Run(sock, events).history;
    forall k | 0 <= k < |h| && (h[k].Shutdown? || h[k].AllWritten?) ensures Balanced(h[..k]) {
    }
    forall i, j | 0 <= i < j < |h| && h[i].AllWritten? && h[j].AllWritten?
      ensures exists m :: i < m < j && h[m].Called?
    {
      assert CalledAfter(h[..j], i);
    }
  }

  /** Why a write fails, from its arguments, the queue and the kernel's answer alone. */
  predicate Refused(sock: Socket, s: State, op: Op)
    requires op.Write?
  {
    || (op.hasSid && op.sid < 0)
    || (sock.Atomic() && 0 < sock.writeSize < |op.data|)
    || (s.queue == [] && op.data != [] && op.reply.Failed?)
  }

  /** Exactly which writes fail, and how. */
  lemma WriteCodes(sock: Socket, s: State, op: Op)
    requires op.Write?
    ensures var code := DoWrite(sock, s, op).1;
            && (code == BadArgument <==> op.hasSid && op.sid < 0)
            && (code == MessageTooBig <==>
                  !(op.hasSid && op.sid < 0) && sock.Atomic() && 0 < sock.writeSize < |op.data|)
            && (code == IoError <==>
                  Rejected(sock, op).None? && s.queue == [] && op.data != [] && op.reply.Failed?)
            && code != Blocked
  {
  }

  /** The stream of a write: the flow's own on a shared association, the caller's where SCTP has more
      than one, and 0 otherwise; 16 bits of it. */
  function Stream(sock: Socket, op: Op): nat
    requires op.Write? && !(op.hasSid && op.sid < 0)
  {
    if sock.multistreamId != 0 then sock.multistreamId % 0x1_0000
    else if op.hasSid && sock.stack == SCTP && sock.streamsAvailable != 1 then op.sid % 0x1_0000
    else 0
  }

  lemma BuiltIs(sock: Socket, op: Op)
    requires op.Write? && Rejected(sock, op).None?
    ensures Built(sock, op) == Message(Stream(sock, op), op.unordered, op.data)
  {
  }

  /** A write of data counts as written, once and last, if and only if nothing refuses it; whatever
      the kernel takes of it at once, it counts with all of the caller's bytes. */
  lemma RecordedIff(sock: Socket, s: State, op: Op)
    requires op.Write? && op.data != []
    ensures Written(DoWrite(sock, s, op).0.history) == Written(s.history) <==> Refused(sock, s, op)
    ensures !Refused(sock, s, op) ==>
              Written(DoWrite(sock, s, op).0.history)
              == Written(s.history) + [Message(Stream(sock, op), op.unordered, op.data)]
  {
    WriteCodes(sock, s, op);
    if Refused(sock, s, op) {
      FailedWriteInert(sock, s, op);
    } else {
      GoodWriteRecorded(sock, s, op);
    }
  }

  /** A refused or failed write sends nothing and queues nothing. */
  lemma FailedWriteInert(sock: Socket, s: State, op: Op)
    requires op.Write? && DoWrite(sock, s, op).1 != Ok
    ensures var s' := DoWrite(sock, s, op).0;
            && s'.queue == s.queue && s'.draining == s.draining
            && Log(s'.history) == Log(s.history) && Written(s'.history) == Written(s.history)
  {
    LogSnoc(s.history, Called);
  }

  /** A successful write counts as one written message with the caller's bytes. */
  lemma GoodWriteRecorded(sock: Socket, s: State, op: Op)
    requires op.Write? && op.data != [] && DoWrite(sock, s, op).1 == Ok
    ensures !(op.hasSid && op.sid < 0)
    ensures Written(DoWrite(sock, s, op).0.history)
            == Written(s.history) + [Message(Stream(sock, op), op.unordered, op.data)]
  {
    var m := Built(sock, op);
    BuiltIs(sock, op);
    var h := Begin(s).history;
    LogSnoc(s.history, Called);
    if s.queue == [] && op.reply.Accepted? {
      var len := sock.Offer(|m.data|);
      var x := Emit(sock, m, len, Taken(op.reply.n, len));
      LogSnoc(h, Sent(x));
      LogSnoc(h + [Sent(x)], Wrote(m));
    } else {
      LogSnoc(h, Wrote(m));
    }
  }

  /** A shutdown deferred by queued data is issued by the writable event that drains it, whatever
      the kernel's answers were. */
  lemma DeferredShutdown(sock: Socket, s: State, replies: seq<Reply>, w: seq<Op>, a: seq<Op>)
    requires Inv(sock, s) && s.draining && s.closing
    ensures var s' := Step(sock, s, Writable(replies, w, a));
            s'.queue == [] ==> s'.history != [] && s'.history[|s'.history| - 1] == Shutdown
  {
    FlushFlags(sock, s, replies);
  }

  lemma {:induction false} FlushFlags(sock: Socket, s: State, replies: seq<Reply>)
    requires Live(s.queue)
    ensures FlushAll(sock, s, replies).0.closing == s.closing
    decreases |replies|
  {
    if s.queue != [] && replies != [] && replies[0].Accepted? {
      FlushFlags(sock, SendOne(sock, s, replies[0].n), replies[1..]);
    }
  }
}
