/**
 What every run keeps of single bytes: each byte is sent with the stream and the order flag of the
 message it was written with, and messages are merged on TCP only.
 */
module WriteLabels {
  import opened Types
  import opened WriteSpec
  import P = WriteProofs

  /** A byte with the ancillary data it has to be sent with. */
  datatype Label = Label(byte: Byte, sid: nat, unordered: bool)

  function Labelled(data: seq<Byte>, sid: nat, unordered: bool): (r: seq<Label>)
    ensures |r| == |data| && forall i :: 0 <= i < |data| ==> r[i] == Label(data[i], sid, unordered)
  {
    seq(|data|, i requires 0 <= i < |data| => Label(data[i], sid, unordered))
  }

  /** Stream data means something on SCTP only. */
  function Meant(sock: Socket, m: Message): seq<Label> {
    if sock.stack == SCTP then Labelled(m.data, m.sid, m.unordered) else Labelled(m.data, 0, false)
  }

  function LabelsSent(log: seq<Segment>): seq<Label> {
    if log == [] then []
    else
      var x := log[|log| - 1];
      LabelsSent(log[..|log| - 1]) + Labelled(x.data, x.sid, x.unordered)
  }

  /** The labels of each message. */
  function Each(sock: Socket, ms: seq<Message>): (r: seq<seq<Label>>)
    ensures |r| == |ms| && forall i :: 0 <= i < |ms| ==> r[i] == Meant(sock, ms[i])
  {
    seq(|ms|, i requires 0 <= i < |ms| => Meant(sock, ms[i]))
  }

  function Flat(xs: seq<seq<Label>>): seq<Label> {
    if xs == [] then [] else Flat(xs[..|xs| - 1]) + xs[|xs| - 1]
  }

  function LabelsMeant(sock: Socket, ms: seq<Message>): seq<Label> { Flat(Each(sock, ms)) }

  lemma SentSnoc(log: seq<Segment>, x: Segment)
    ensures LabelsSent(log + [x]) == LabelsSent(log) + Labelled(x.data, x.sid, x.unordered)
  {
    assert (log + [x])[..|log|] == log;
  }

  lemma FlatSnoc(xs: seq<seq<Label>>, x: seq<Label>)
    ensures Flat(xs + [x]) == Flat(xs) + x
  {
    assert (xs + [x])[..|xs|] == xs;
  }

  lemma {:induction false} FlatCons(x: seq<Label>, xs: seq<seq<Label>>)
    ensures Flat([x] + xs) == x + Flat(xs)
    decreases |xs|
  {
    if xs == [] {
      assert [x] + xs == [] + [x] && [] + x == x + [];
      FlatSnoc([], x);
    } else {
      var front, last := xs[..|xs| - 1], xs[|xs| - 1];
      FlatCons(x, front);
      assert Flat([x] + xs) == Flat([x] + front) + last by {
        assert [x] + xs == ([x] + front) + [last];
        FlatSnoc([x] + front, last);
      }
      Assoc(x, Flat(front), last);
    }
  }

  lemma MeantSnoc(sock: Socket, ms: seq<Message>, m: Message)
    ensures LabelsMeant(sock, ms + [m]) == LabelsMeant(sock, ms) + Meant(sock, m)
  {
    assert Each(sock, ms + [m]) == Each(sock, ms) + [Meant(sock, m)];
    FlatSnoc(Each(sock, ms), Meant(sock, m));
  }

  lemma MeantCons(sock: Socket, m: Message, ms: seq<Message>)
    ensures LabelsMeant(sock, [m] + ms) == Meant(sock, m) + LabelsMeant(sock, ms)
  {
    assert Each(sock, [m] + ms) == [Meant(sock, m)] + Each(sock, ms);
    FlatCons(Meant(sock, m), Each(sock, ms));
  }

  lemma Assoc(a: seq<Label>, b: seq<Label>, c: seq<Label>)
    ensures (a + b) + c == a + (b + c)
  {
  }

  // ---------------------------------------------------------------- where messages are

  /** On TCP all unsent data is in one buffer; elsewhere every queued message is a written one, and
      only the first may have lost a part to the kernel. */
  ghost predicate Unmerged(sock: Socket, queue: seq<Message>, written: seq<Message>) {
    if sock.stack == TCP then |queue| <= 1
    else
      var o := |written| - |queue|;
      && o >= 0
      && (forall i :: 1 <= i < |queue| ==> queue[i] == written[o + i])
      && (queue != [] ==> RestOf(queue[0], written[o]))
  }

  /** `rest` is the end of message `m`. */
  ghost predicate RestOf(rest: Message, m: Message) {
    && rest == m.(data := rest.data) && |rest.data| <= |m.data|
    && m.data[|m.data| - |rest.data|..] == rest.data
  }

  /** Sent and queued bytes have the labels of the written ones; only explicit EOR ends records. */
  ghost predicate Placed(sock: Socket, log: seq<Segment>, queue: seq<Message>, written: seq<Message>) {
    && LabelsSent(log) + LabelsMeant(sock, queue) == LabelsMeant(sock, written)
    && Unmerged(sock, queue, written)
    && (forall i :: 0 <= i < |log| && log[i].eor ==> sock.Framed())
  }

  lemma SplitMeant(sock: Socket, m: Message, k: nat)
    requires k <= |m.data|
    ensures Meant(sock, m) == Meant(sock, m.(data := m.data[..k])) + Meant(sock, m.(data := m.data[k..]))
  {
  }

  lemma Regroup(j: seq<Label>, a: seq<Label>, b: seq<Label>, c: seq<Label>)
    ensures (j + a) + (b + c) == j + ((a + b) + c)
  {
  }

  lemma HeadMeant(sock: Socket, q: seq<Message>)
    requires q != []
    ensures LabelsMeant(sock, q) == Meant(sock, q[0]) + LabelsMeant(sock, q[1..])
  {
    assert q == [q[0]] + q[1..];
    MeantCons(sock, q[0], q[1..]);
  }

  /** What is left of the queue after `k` bytes of its head. */
  lemma RestMeant(sock: Socket, q: seq<Message>, rest: Message)
    requires q != []
    ensures LabelsMeant(sock, if rest.data == [] then q[1..] else [rest] + q[1..])
         == Meant(sock, rest) + LabelsMeant(sock, q[1..])
  {
    if rest.data == [] {
      assert Meant(sock, rest) == [];
    } else {
      MeantCons(sock, rest, q[1..]);
    }
  }

  lemma SegmentMeant(sock: Socket, q: seq<Message>, n: nat)
    requires Live(q) && q != []
    ensures var x := SendHead(sock, q, n).0;
            && |x.data| <= |q[0].data|
            && Labelled(x.data, x.sid, x.unordered) == Meant(sock, q[0].(data := q[0].data[..|x.data|]))
  {
  }

  /** A send takes the labels off the front of the queue. */
  lemma SendLabels(sock: Socket, log: seq<Segment>, q: seq<Message>, n: nat)
    requires Live(q) && q != []
    ensures var (x, q') := SendHead(sock, q, n);
            LabelsSent(log + [x]) + LabelsMeant(sock, q') == LabelsSent(log) + LabelsMeant(sock, q)
  {
    var (x, q') := SendHead(sock, q, n);
    var m, k := q[0], |x.data|;
    SegmentMeant(sock, q, n);
    var gone, rest := m.(data := m.data[..k]), m.(data := m.data[k..]);
    SentSnoc(log, x);
    HeadMeant(sock, q);
    SplitMeant(sock, m, k);
    RestMeant(sock, q, rest);
    Regroup(LabelsSent(log), Meant(sock, gone), Meant(sock, rest), LabelsMeant(sock, q[1..]));
  }

  lemma HeadGone(sock: Socket, q: seq<Message>, written: seq<Message>)
    requires sock.stack != TCP && q != [] && Unmerged(sock, q, written)
    ensures Unmerged(sock, q[1..], written)
  {
    var o, r := |written| - |q|, q[1..];
    if r != [] {
      assert r[0] == q[1] == written[o + 1];
      assert RestOf(r[0], written[o + 1]);
    }
    forall i | 1 <= i < |r| ensures r[i] == written[o + 1 + i] {
      assert q[i + 1] == written[o + (i + 1)];
    }
  }

  lemma HeadShorter(sock: Socket, q: seq<Message>, written: seq<Message>, k: nat)
    requires sock.stack != TCP && q != [] && Unmerged(sock, q, written) && k <= |q[0].data|
    ensures Unmerged(sock, [q[0].(data := q[0].data[k..])] + q[1..], written)
  {
    var o, r := |written| - |q|, [q[0].(data := q[0].data[k..])] + q[1..];
    RestShorter(q[0], written[o], k);
    forall i | 1 <= i < |r| ensures r[i] == written[o + i] {
      assert r[i] == q[i];
    }
  }

  lemma SendUnmerged(sock: Socket, q: seq<Message>, written: seq<Message>, n: nat)
    requires Live(q) && q != [] && Unmerged(sock, q, written)
    ensures Unmerged(sock, SendHead(sock, q, n).1, written)
  {
    if sock.stack != TCP {
      var k := |SendHead(sock, q, n).0.data|;
      HeadGone(sock, q, written);
      HeadShorter(sock, q, written, k);
    }
  }

  lemma RestShorter(rest: Message, m: Message, k: nat)
    requires RestOf(rest, m) && k <= |rest.data|
    ensures RestOf(rest.(data := rest.data[k..]), m)
  {
    var o := |m.data| - |rest.data|;
    assert m.data[o + k..] == m.data[o..][k..];
  }

  lemma SendPlaced(sock: Socket, log: seq<Segment>, q: seq<Message>, written: seq<Message>, n: nat)
    requires Live(q) && q != [] && Placed(sock, log, q, written)
    ensures Placed(sock, log + [SendHead(sock, q, n).0], SendHead(sock, q, n).1, written)
  {
    SendLabels(sock, log, q, n);
    SendUnmerged(sock, q, written, n);
  }

  lemma ExtendLabels(sock: Socket, q: seq<Message>, m: Message)
    requires sock.stack == TCP && q != []
    ensures var n := |q| - 1;
            LabelsMeant(sock, q[n := q[n].(data := q[n].data + m.data)]) == LabelsMeant(sock, q) + Meant(sock, m)
  {
    var n := |q| - 1;
    var last := q[n].(data := q[n].data + m.data);
    assert q[n := last] == q[..n] + [last];
    MeantSnoc(sock, q[..n], last);
    assert q == q[..n] + [q[n]];
    MeantSnoc(sock, q[..n], q[n]);
    assert Meant(sock, last) == Meant(sock, q[n]) + Meant(sock, m);
  }

  lemma FillLabels(sock: Socket, q: seq<Message>, m: Message)
    ensures LabelsMeant(sock, Fill(sock, q, m)) == LabelsMeant(sock, q) + Meant(sock, m)
  {
    if m.data != [] && sock.stack == TCP && q != [] {
      ExtendLabels(sock, q, m);
    } else {
      MeantSnoc(sock, q, m);
    }
  }

  lemma FillUnmerged(sock: Socket, q: seq<Message>, written: seq<Message>, m: Message)
    requires Unmerged(sock, q, written) && m.data != []
    ensures Unmerged(sock, Fill(sock, q, m), written + [m])
  {
    if sock.stack != TCP {
      assert Fill(sock, q, m) == q + [m];
      var o := |written| - |q|;
      forall i | 1 <= i < |q| + 1 ensures (q + [m])[i] == (written + [m])[o + i] {
        if i < |q| {
          assert q[i] == written[o + i];
        }
      }
    }
  }

  lemma FillPlaced(sock: Socket, log: seq<Segment>, q: seq<Message>, written: seq<Message>, m: Message)
    requires Placed(sock, log, q, written)
    ensures Placed(sock, log, Fill(sock, q, m), if m.data == [] then written else written + [m])
  {
    if m.data != [] {
      FillUnmerged(sock, q, written, m);
      FillLabels(sock, q, m);
      MeantSnoc(sock, written, m);
      Assoc(LabelsSent(log), LabelsMeant(sock, q), Meant(sock, m));
    }
  }

  // ---------------------------------------------------------------- steps

  ghost predicate Kept(sock: Socket, s: State) {
    Live(s.queue) && Placed(sock, P.Log(s.history), s.queue, P.Written(s.history))
  }

  /** Entries that are neither sends nor writes change nothing here. */
  lemma NoteKeeps(sock: Socket, s: State, t: State, e: Entry)
    requires Kept(sock, s) && t.queue == s.queue && t.history == s.history + [e] && !e.Sent? && !e.Wrote?
    ensures Kept(sock, t)
  {
    P.LogSnoc(s.history, e);
  }

  lemma BufferKeeps(sock: Socket, s: State, m: Message)
    requires Kept(sock, s)
    ensures Kept(sock, Buffer(sock, s, m, m))
  {
    P.LogSnoc(s.history, Wrote(m));
    P.FillConserves(sock, s.queue, m);
    FillPlaced(sock, P.Log(s.history), s.queue, P.Written(s.history), m);
  }

  lemma DirectPlaced(sock: Socket, log: seq<Segment>, written: seq<Message>, m: Message, n: nat)
    requires Placed(sock, log, [], written) && m.data != []
    ensures var (x, q') := SendHead(sock, [m], n); Placed(sock, log + [x], q', written + [m])
  {
    FillPlaced(sock, log, [], written, m);
    assert [] + [m] == [m];
    SendPlaced(sock, log, [m], written + [m], n);
  }

  lemma DirectKeeps(sock: Socket, s: State, m: Message, n: nat)
    requires Kept(sock, s) && s.queue == [] && m.data != []
    ensures Kept(sock, Direct(sock, s, m, n))
  {
    var x := SendHead(sock, [m], n).0;
    P.DirectIsSendHead(sock, s, m, n);
    P.LogSnoc(s.history, Sent(x));
    P.LogSnoc(s.history + [Sent(x)], Wrote(m));
    DirectPlaced(sock, P.Log(s.history), P.Written(s.history), m, n);
  }

  lemma WriteKeeps(sock: Socket, s: State, op: Op)
    requires Kept(sock, s) && op.Write?
    ensures Kept(sock, DoWrite(sock, s, op).0)
  {
    NoteKeeps(sock, s, Begin(s), Called);
    if Rejected(sock, op).None? {
      DeliverKeeps(sock, Begin(s), Built(sock, op), op.reply);
    }
  }

  lemma DeliverKeeps(sock: Socket, s: State, m: Message, reply: Reply)
    requires Kept(sock, s)
    ensures Kept(sock, Deliver(sock, s, m, reply).0)
  {
    var t := Deliver(sock, s, m, reply).0;
    if s.queue == [] && m.data != [] && reply.Accepted? {
      DirectKeeps(sock, s, m, reply.n);
    } else if s.queue == [] && m.data != [] && reply.Failed? {
      SameKeeps(sock, s, t);
    } else {
      BufferKeeps(sock, s, m);
    }
  }

  lemma SameKeeps(sock: Socket, s: State, t: State)
    requires Kept(sock, s) && t.queue == s.queue && t.history == s.history
    ensures Kept(sock, t)
  {
  }

  lemma ShutdownKeeps(sock: Socket, s: State)
    requires Kept(sock, s)
    ensures Kept(sock, DoShutdown(s))
  {
    if !s.draining {
      NoteKeeps(sock, s, DoShutdown(s), Shutdown);
    }
  }

  lemma OpKeeps(sock: Socket, s: State, op: Op)
    requires Kept(sock, s)
    ensures Kept(sock, DoOp(sock, s, op))
  {
    match op
    case Write(_, _, _, _, _) => WriteKeeps(sock, s, op);
    case Close =>
      var t := s.(history := s.history + [CloseCalled]);
      NoteKeeps(sock, s, t, CloseCalled);
      ShutdownKeeps(sock, t);
    case SetOps(_, _) =>
  }

  lemma {:induction false} OpsKeep(sock: Socket, s: State, ops: seq<Op>)
    requires Kept(sock, s)
    ensures Kept(sock, DoOps(sock, s, ops))
    decreases |ops|
  {
    if ops != [] {
      OpKeeps(sock, s, ops[0]);
      OpsKeep(sock, DoOp(sock, s, ops[0]), ops[1..]);
    }
  }

  lemma SendKeeps(sock: Socket, s: State, n: nat)
    requires Kept(sock, s) && s.queue != []
    ensures Kept(sock, SendOne(sock, s, n))
  {
    P.LogSnoc(s.history, Sent(SendHead(sock, s.queue, n).0));
    SendPlaced(sock, P.Log(s.history), s.queue, P.Written(s.history), n);
  }

  lemma {:induction false} FlushKeeps(sock: Socket, s: State, replies: seq<Reply>)
    requires Kept(sock, s)
    ensures Kept(sock, FlushAll(sock, s, replies).0)
    decreases |replies|
  {
    if s.queue != [] && replies != [] && replies[0].Accepted? {
      P.FlushGoesOn(sock, s, replies);
      SendKeeps(sock, s, replies[0].n);
      FlushKeeps(sock, SendOne(sock, s, replies[0].n), replies[1..]);
    } else {
      P.FlushStays(sock, s, replies);
      SameKeeps(sock, s, FlushAll(sock, s, replies).0);
    }
  }

  lemma AfterKeeps(sock: Socket, s: State, a: seq<Op>)
    requires Kept(sock, s)
    ensures Kept(sock, AfterWritable(sock, s, a))
  {
    ShutdownKeeps(sock, s);
    if !s.draining && !s.closing && s.onAllWritten && s.notify {
      var t := s.(notify := false, history := s.history + [AllWritten]);
      NoteKeeps(sock, s, t, AllWritten);
      OpsKeep(sock, t, a);
    }
  }

  lemma StepKeeps(sock: Socket, s: State, e: Event)
    requires Kept(sock, s)
    ensures Kept(sock, Step(sock, s, e))
  {
    match e
    case App(op) => OpKeeps(sock, s, op);
    case Writable(replies, w, a) =>
      if s.draining {
        FlushKeeps(sock, s, replies);
        AfterKeeps(sock, DoFlush(sock, s, replies).0, a);
      } else if s.onWritable {
        OpsKeep(sock, s, w);
        AfterKeeps(sock, DoOps(sock, s, w), a);
      } else {
        AfterKeeps(sock, s, a);
      }
  }

  lemma {:induction false} RunKeeps(sock: Socket, events: seq<Event>)
    ensures Kept(sock, P.Run(sock, events))
    decreases |events|
  {
    if events == [] {
      assert P.Log([]) == [] && P.Written([]) == [];
    } else {
      var n := |events| - 1;
      RunKeeps(sock, events[..n]);
      StepKeeps(sock, P.Run(sock, events[..n]), events[n]);
    }
  }

  /** In every run each byte is sent, or waits, with the stream and order flag it was written with;
      only TCP merges messages, any other queued message is a written one or the end of one; and only
      explicit EOR ends records. */
  lemma LabelConservation(sock: Socket, events: seq<Event>)
    ensures var s := P.Run(sock, events);
            var log, written := P.Log(s.history), P.Written(s.history);
            && LabelsSent(log) + LabelsMeant(sock, s.queue) == LabelsMeant(sock, written)
            && Unmerged(sock, s.queue, written)
            && (forall i :: 0 <= i < |log| && log[i].eor ==> sock.Framed())
  {
    RunKeeps(sock, events);
  }
}
