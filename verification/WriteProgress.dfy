/**
 What happens on the write path, said from outside: which bytes a writable event hands to the kernel,
 what a write does at once, when the drain is reported, and what the application has written in all.
 */
module WriteProgress {
  import opened Types
  import opened WriteSpec
  import opened WriteProofs

  // ---------------------------------------------------------------- histories only grow

  lemma {:induction false} LogGrows(h: seq<Entry>, g: seq<Entry>)
    requires h <= g
    ensures Log(h) <= Log(g)
    decreases |g|
  {
    if |h| < |g| {
      var n := |g| - 1;
      assert h <= g[..n];
      LogGrows(h, g[..n]);
    } else {
      assert h == g;
    }
  }

  lemma OpGrows(sock: Socket, s: State, op: Op)
    ensures s.history <= DoOp(sock, s, op).history
  {
    if op.Write? {
      assert s.history <= Begin(s).history;
      if Rejected(sock, op).None? {
        DeliverGrows(sock, Begin(s), Built(sock, op), op.reply);
      }
    }
  }

  lemma DeliverGrows(sock: Socket, s: State, m: Message, reply: Reply)
    ensures s.history <= Deliver(sock, s, m, reply).0.history
  {
  }

  lemma {:induction false} OpsGrow(sock: Socket, s: State, ops: seq<Op>)
    ensures s.history <= DoOps(sock, s, ops).history
    decreases |ops|
  {
    if ops != [] {
      OpGrows(sock, s, ops[0]);
      OpsGrow(sock, DoOp(sock, s, ops[0]), ops[1..]);
    }
  }

  // ---------------------------------------------------------------- what a flush sends

  /** How many answers in a row accept something. */
  function Leading(replies: seq<Reply>): (k: nat)
    ensures k <= |replies| && forall i :: 0 <= i < k ==> replies[i].Accepted?
    ensures k < |replies| ==> !replies[k].Accepted?
  {
    if replies == [] || !replies[0].Accepted? then 0 else 1 + Leading(replies[1..])
  }

  /** No segment is empty. */
  ghost predicate Solid(segs: seq<Segment>) { forall i :: 0 <= i < |segs| ==> segs[i].data != [] }

  /** `t` is `s` after the kernel took `sent`, `k` answers accepting: only the queue and the history
      differ, and there are fewer sends than that only if the queue is empty. */
  ghost predicate Flushed(s: State, t: State, sent: seq<Segment>, k: nat) {
    && t == s.(queue := t.queue, history := t.history, draining := s.draining && t.queue != [])
    && s.history <= t.history
    && Log(t.history) == Log(s.history) + sent
    && Joined(sent) + Contents(t.queue) == Contents(s.queue)
    && Solid(sent) && |sent| <= k && (|sent| < k ==> t.queue == [])
  }

  lemma {:induction false} JoinedCons(x: Segment, segs: seq<Segment>)
    ensures Joined([x] + segs) == x.data + Joined(segs)
    decreases |segs|
  {
    if segs == [] {
      assert [x] + segs == [] + [x];
      JoinedSnoc([], x);
    } else {
      var n := |segs| - 1;
      JoinedCons(x, segs[..n]);
      assert [x] + segs == ([x] + segs[..n]) + [segs[n]];
      JoinedSnoc([x] + segs[..n], segs[n]);
    }
  }

  /** `t` is `s` after one send of `x`. */
  ghost predicate SentOne(s: State, t: State, x: Segment) {
    && t == s.(queue := t.queue, history := t.history) && s.history <= t.history
    && Log(t.history) == Log(s.history) + [x] && x.data != []
    && x.data + Contents(t.queue) == Contents(s.queue)
  }

  lemma OneSend(sock: Socket, s: State, n: nat)
    requires Live(s.queue) && s.queue != []
    ensures SentOne(s, SendOne(sock, s, n), SendHead(sock, s.queue, n).0)
  {
    var x := SendHead(sock, s.queue, n).0;
    LogSnoc(s.history, Sent(x));
    SendConserves(sock, [], s.queue, n);
    JoinedSnoc([], x);
    assert [] + x.data == x.data && [] + Contents(s.queue) == Contents(s.queue);
  }

  lemma SendThenFlush(s: State, t: State, u: State, x: Segment, sent: seq<Segment>, k: nat)
    requires SentOne(s, t, x) && Flushed(t, u, sent, k)
    ensures Flushed(s, u, [x] + sent, k + 1)
  {
    JoinedCons(x, sent);
    assert (x.data + Joined(sent)) + Contents(u.queue) == x.data + (Joined(sent) + Contents(u.queue));
    assert Log(s.history) + [x] + sent == Log(s.history) + ([x] + sent);
  }

  lemma FlushStops(sock: Socket, s: State, replies: seq<Reply>)
    requires Live(s.queue) && (s.queue == [] || Leading(replies) == 0)
    ensures Flushed(s, FlushAll(sock, s, replies).0, [], Leading(replies))
  {
    assert Log(s.history) + [] == Log(s.history) && [] + Contents(s.queue) == Contents(s.queue);
  }

  lemma {:induction false} FlushSends(sock: Socket, s: State, replies: seq<Reply>) returns (sent: seq<Segment>)
    requires Live(s.queue)
    ensures Flushed(s, FlushAll(sock, s, replies).0, sent, Leading(replies))
    decreases |replies|
  {
    if s.queue == [] || replies == [] || !replies[0].Accepted? {
      FlushStops(sock, s, replies);
      return [];
    }
    var n, more := replies[0].n, replies[1..];
    var x, t := SendHead(sock, s.queue, n).0, SendOne(sock, s, n);
    OneSend(sock, s, n);
    var rest := FlushSends(sock, t, more);
    var u := FlushAll(sock, t, more).0;
    SendThenFlush(s, t, u, x, rest, Leading(more));
    sent := [x] + rest;
    assert FlushAll(sock, s, replies).0 == u;
  }

  /** What follows a flush in the same event: nothing while data is queued; else the shutdown that was
      asked for, or the drain report with the calls made in it. */
  ghost predicate Followed(mid: State, t: State) {
    if mid.queue != [] then t == mid
    else if mid.closing then t == mid.(history := mid.history + [Shutdown])
    else if mid.onAllWritten && mid.notify then mid.history + [AllWritten] <= t.history
    else t == mid
  }

  lemma FlushThenReport(sock: Socket, s: State, replies: seq<Reply>, w: seq<Op>, a: seq<Op>)
    returns (sent: seq<Segment>, mid: State)
    requires Inv(sock, s) && s.draining
    ensures Flushed(s, mid, sent, Leading(replies)) && Followed(mid, Step(sock, s, Writable(replies, w, a)))
  {
    sent := FlushSends(sock, s, replies);
    mid := FlushAll(sock, s, replies).0;
    if mid.queue == [] && !mid.closing && mid.onAllWritten && mid.notify {
      OpsGrow(sock, mid.(notify := false, history := mid.history + [AllWritten]), a);
    }
  }

  lemma ContentsNonEmpty(q: seq<Message>)
    requires Live(q)
    ensures Contents(q) == [] <==> q == []
  {
    if q != [] {
      ContentsHead(q);
    }
  }

  /** A writable event of a draining flow hands queued bytes to the kernel, in order: one send for
      each answer that accepts, until an answer does not or nothing is left. Whatever the callbacks
      do then comes after. */
  lemma WritableSends(sock: Socket, s: State, replies: seq<Reply>, w: seq<Op>, a: seq<Op>)
    returns (sent: seq<Segment>)
    requires Inv(sock, s) && s.draining
    ensures var t := Step(sock, s, Writable(replies, w, a));
            && Log(s.history) + sent <= Log(t.history)
            && Solid(sent) && Joined(sent) <= Contents(s.queue)
            && |sent| <= Leading(replies)
            && (|sent| < Leading(replies) ==> Joined(sent) == Contents(s.queue))
            && (Leading(replies) > 0 ==> sent != [])
            && (Joined(sent) != Contents(s.queue) ==>
                  Log(t.history) == Log(s.history) + sent && Joined(sent) + Contents(t.queue) == Contents(s.queue))
  {
    var mid: State;
    sent, mid := FlushThenReport(sock, s, replies, w, a);
    var t := Step(sock, s, Writable(replies, w, a));
    ContentsNonEmpty(s.queue);
    LogGrows(mid.history, t.history);
    if mid.queue == [] {
      assert Joined(sent) + [] == Joined(sent);
    }
  }

  lemma {:induction false} SolidLength(segs: seq<Segment>)
    requires Solid(segs)
    ensures |Joined(segs)| >= |segs|
    decreases |segs|
  {
    if segs != [] {
      SolidLength(segs[..|segs| - 1]);
    }
  }

  lemma {:induction false} JoinedGrows(a: seq<Segment>, b: seq<Segment>)
    requires a <= b
    ensures Joined(a) <= Joined(b)
    decreases |b|
  {
    if |a| < |b| {
      var n := |b| - 1;
      assert a <= b[..n];
      JoinedGrows(a, b[..n]);
    } else {
      assert a == b;
    }
  }

  lemma {:induction false} JoinedConcat(a: seq<Segment>, b: seq<Segment>)
    ensures Joined(a + b) == Joined(a) + Joined(b)
    decreases |b|
  {
    if b == [] {
      assert a + b == a && Joined(a) + [] == Joined(a);
    } else {
      var n := |b| - 1;
      JoinedConcat(a, b[..n]);
      assert Joined(a + b) == Joined(a + b[..n]) + b[n].data by {
        assert a + b == (a + b[..n]) + [b[n]];
        JoinedSnoc(a + b[..n], b[n]);
      }
      assert Joined(b) == Joined(b[..n]) + b[n].data;
    }
  }

  /** With an answer that accepts for every queued byte, the event leaves nothing of them unsent. */
  lemma FlushTerminates(sock: Socket, s: State, replies: seq<Reply>, w: seq<Op>, a: seq<Op>)
    requires Inv(sock, s) && s.draining
    requires Leading(replies) >= |Contents(s.queue)|
    ensures Joined(Log(s.history)) + Contents(s.queue) <= Joined(Log(Step(sock, s, Writable(replies, w, a)).history))
  {
    var sent := WritableSends(sock, s, replies, w, a);
    SolidLength(sent);
    assert Joined(sent) == Contents(s.queue);
    JoinedConcat(Log(s.history), sent);
    JoinedGrows(Log(s.history) + sent, Log(Step(sock, s, Writable(replies, w, a)).history));
  }

  /** In every run: once the kernel has accepted long enough, all that was written before is sent. */
  lemma EverythingSent(sock: Socket, events: seq<Event>, replies: seq<Reply>, w: seq<Op>, a: seq<Op>)
    requires Leading(replies) >= |Contents(Run(sock, events).queue)|
    ensures Contents(Written(Run(sock, events).history))
            <= Joined(Log(Run(sock, events + [Writable(replies, w, a)]).history))
  {
    var s, e := Run(sock, events), Writable(replies, w, a);
    assert (events + [e])[..|events|] == events;
    var t := Step(sock, s, e);
    assert Run(sock, events + [e]) == t;
    assert Joined(Log(s.history)) + Contents(s.queue) == Contents(Written(s.history));
    if s.draining {
      FlushTerminates(sock, s, replies, w, a);
    } else {
      IdleGrows(sock, s, replies, w, a);
      LogGrows(s.history, t.history);
      JoinedGrows(Log(s.history), Log(t.history));
      assert Joined(Log(s.history)) + [] == Joined(Log(s.history));
    }
  }

  lemma IdleGrows(sock: Socket, s: State, replies: seq<Reply>, w: seq<Op>, a: seq<Op>)
    requires Live(s.queue) && !s.draining
    ensures s.history <= Step(sock, s, Writable(replies, w, a)).history
  {
    var mid := if s.onWritable then DoOps(sock, s, w) else s;
    OpsGrow(sock, s, w);
    OpsGrow(sock, mid.(notify := false, history := mid.history + [AllWritten]), a);
  }

  // ---------------------------------------------------------------- one send

  /** How much of a message leaves in a call when the kernel takes up to `n` bytes: at least one, at
      most what is offered, which a positive write limit bounds with explicit EOR. */
  function Share(sock: Socket, size: nat, n: nat): (k: nat)
    requires size > 0
    ensures 1 <= k <= size
  {
    var offer := if sock.stack == SCTP && sock.explicitEor && 0 < sock.writeLimit < size then sock.writeLimit else size;
    if n == 0 then 1 else if n < offer then n else offer
  }

  /** The part of a message that leaves, with its ancillary data and whether it ends the record. */
  function Part(sock: Socket, m: Message, k: nat): Segment
    requires k <= |m.data|
  {
    var sctp := sock.stack == SCTP;
    Segment(if sctp then m.sid else 0, sctp && m.unordered, m.data[..k], sctp && sock.explicitEor && k == |m.data|)
  }

  lemma SendIsPart(sock: Socket, q: seq<Message>, n: nat)
    requires Live(q) && q != []
    ensures SendHead(sock, q, n).0 == Part(sock, q[0], Share(sock, |q[0].data|, n))
  {
  }

  lemma FlushFirst(sock: Socket, s: State, n: nat, replies: seq<Reply>)
    requires Live(s.queue) && s.queue != [] && replies != [] && replies[0] == Accepted(n)
    ensures Log(s.history) + [SendHead(sock, s.queue, n).0] <= Log(FlushAll(sock, s, replies).0.history)
  {
    var t := SendOne(sock, s, n);
    OneSend(sock, s, n);
    var rest := FlushSends(sock, t, replies[1..]);
    LogGrows(t.history, FlushAll(sock, t, replies[1..]).0.history);
  }

  /** The first send of a writable event is the front of the oldest message. */
  lemma FirstSend(sock: Socket, s: State, replies: seq<Reply>, w: seq<Op>, a: seq<Op>)
    requires Inv(sock, s) && s.draining && replies != [] && replies[0].Accepted?
    ensures var m := s.queue[0];
            Log(s.history) + [Part(sock, m, Share(sock, |m.data|, replies[0].n))]
            <= Log(Step(sock, s, Writable(replies, w, a)).history)
  {
    SendIsPart(sock, s.queue, replies[0].n);
    FlushFirst(sock, s, replies[0].n, replies);
    FlushReaches(sock, s, replies, w, a);
    LogGrows(FlushAll(sock, s, replies).0.history, Step(sock, s, Writable(replies, w, a)).history);
  }

  lemma FlushReaches(sock: Socket, s: State, replies: seq<Reply>, w: seq<Op>, a: seq<Op>)
    requires Inv(sock, s) && s.draining
    ensures FlushAll(sock, s, replies).0.history <= Step(sock, s, Writable(replies, w, a)).history
  {
    var u := FlushAll(sock, s, replies).0;
    OpsGrow(sock, u.(notify := false, history := u.history + [AllWritten]), a);
  }
}
