/**
 Deferred shutdown over whole runs: every call of the application that closes a flow is followed
 by the shutdown of the transport, at the latest when the queue is empty.
 */
module WriteShutdown {
  import opened Types
  import opened WriteSpec
  import opened WriteProofs

  ghost predicate ShutAfter(h: seq<Entry>, i: int) {
    exists j :: i < j < |h| && 0 <= j && h[j].Shutdown?
  }

  /** A close call was followed by the shutdown, or the flow still drains and knows of it. */
  ghost predicate Obeyed(s: State) {
    forall i :: 0 <= i < |s.history| && s.history[i].CloseCalled? ==>
      ShutAfter(s.history, i) || (s.closing && s.queue != [])
  }

  /** Without new close calls, what was followed by a shutdown still is. */
  lemma Appended(h: seq<Entry>, g: seq<Entry>)
    requires h <= g
    ensures forall i :: 0 <= i < |h| && ShutAfter(h, i) ==> ShutAfter(g, i)
  {
    forall i | 0 <= i < |h| && ShutAfter(h, i) ensures ShutAfter(g, i) {
      var j :| i < j < |h| && h[j].Shutdown?;
      assert g[j].Shutdown?;
    }
  }

  /** The history grows by entries that are not close calls. */
  ghost predicate Quietly(h: seq<Entry>, g: seq<Entry>) {
    h <= g && forall i :: |h| <= i < |g| ==> !g[i].CloseCalled?
  }

  /** A step without a close call that does not empty the queue. */
  ghost predicate Onward(s: State, t: State) {
    Quietly(s.history, t.history) && (s.closing ==> t.closing) && (s.queue != [] ==> t.queue != [])
  }

  lemma QuietStep(s: State, t: State)
    requires Obeyed(s) && Onward(s, t)
    ensures Obeyed(t)
  {
    Appended(s.history, t.history);
    forall i | 0 <= i < |t.history| && t.history[i].CloseCalled?
      ensures ShutAfter(t.history, i) || (t.closing && t.queue != []) {
      assert s.history[i].CloseCalled?;
    }
  }

  lemma OnwardTwice(s: State, t: State, u: State)
    requires Onward(s, t) && Onward(t, u)
    ensures Onward(s, u)
  {
    forall i | |s.history| <= i < |u.history| ensures !u.history[i].CloseCalled? {
      assert i < |t.history| ==> u.history[i] == t.history[i];
    }
  }

  lemma OneEntry(s: State, e: Entry, t: State)
    requires !e.CloseCalled? && t.history == s.history + [e]
    requires (s.closing ==> t.closing) && (s.queue != [] ==> t.queue != [])
    ensures Onward(s, t)
  {
  }

  lemma DeliverOnward(sock: Socket, s: State, m: Message, reply: Reply)
    ensures Onward(s, Deliver(sock, s, m, reply).0)
  {
    if s.queue == [] && m.data != [] && reply.Accepted? {
      var len := sock.Offer(|m.data|);
      var k := Taken(reply.n, len);
      var sent := s.(history := s.history + [Sent(Emit(sock, m, len, k))]);
      OneEntry(s, Sent(Emit(sock, m, len, k)), sent);
      var u := Buffer(sock, sent, m.(data := m.data[k..]), m);
      OneEntry(sent, Wrote(m), u);
      OnwardTwice(s, sent, u);
    } else if s.queue == [] && m.data != [] && reply.Failed? {
    } else {
      OneEntry(s, Wrote(m), Buffer(sock, s, m, m));
    }
  }

  lemma WriteOnward(sock: Socket, s: State, op: Op)
    requires op.Write?
    ensures Onward(s, DoWrite(sock, s, op).0)
  {
    OneEntry(s, Called, Begin(s));
    if Rejected(sock, op).None? {
      var t := Deliver(sock, Begin(s), Built(sock, op), op.reply).0;
      DeliverOnward(sock, Begin(s), Built(sock, op), op.reply);
      OnwardTwice(s, Begin(s), t);
    }
  }

  /** Without queued data a shutdown answers every close call so far. */
  lemma ShutdownAnswers(s: State)
    requires s.queue == [] && !s.draining
    ensures Obeyed(DoShutdown(s))
  {
    var t := DoShutdown(s);
    forall i | 0 <= i < |t.history| && t.history[i].CloseCalled? ensures ShutAfter(t.history, i) {
      assert t.history[|s.history|].Shutdown?;
    }
  }

  lemma CloseObeyed(sock: Socket, s: State)
    requires Inv(sock, s) && Obeyed(s)
    ensures Obeyed(DoOp(sock, s, Close))
  {
    var called := s.(history := s.history + [CloseCalled]);
    if s.draining {
      Appended(s.history, called.history);
    } else {
      ShutdownAnswers(called);
    }
  }

  lemma OpObeyed(sock: Socket, s: State, op: Op)
    requires Inv(sock, s) && Obeyed(s)
    ensures Obeyed(DoOp(sock, s, op))
  {
    match op
    case Write(_, _, _, _, _) =>
      WriteOnward(sock, s, op);
      QuietStep(s, DoOp(sock, s, op));
    case Close => CloseObeyed(sock, s);
    case SetOps(_, _) =>
  }

  lemma {:induction false} OpsObeyed(sock: Socket, s: State, ops: seq<Op>)
    requires Inv(sock, s) && Obeyed(s)
    ensures Obeyed(DoOps(sock, s, ops))
    decreases |ops|
  {
    if ops != [] {
      OpKeeps(sock, s, ops[0]);
      OpObeyed(sock, s, ops[0]);
      OpsObeyed(sock, DoOp(sock, s, ops[0]), ops[1..]);
    }
  }

  lemma {:induction false} FlushQuietly(sock: Socket, s: State, replies: seq<Reply>)
    requires Live(s.queue)
    ensures Quietly(s.history, FlushAll(sock, s, replies).0.history)
    decreases |replies|
  {
    if s.queue != [] && replies != [] && replies[0].Accepted? {
      FlushQuietly(sock, SendOne(sock, s, replies[0].n), replies[1..]);
    }
  }

  lemma AfterObeyed(sock: Socket, s: State, a: seq<Op>)
    requires Inv(sock, s) && ((s.queue == [] && s.closing) || Obeyed(s))
    ensures Obeyed(AfterWritable(sock, s, a))
  {
    if !s.draining && s.closing {
      ShutdownAnswers(s);
    } else if !s.draining && s.onAllWritten && s.notify {
      var t := s.(notify := false, history := s.history + [AllWritten]);
      QuietStep(s, t);
      ReportKeeps(sock, s);
      OpsObeyed(sock, t, a);
    }
  }

  lemma ReportKeeps(sock: Socket, s: State)
    requires Inv(sock, s) && !s.draining && s.notify
    ensures Inv(sock, s.(notify := false, history := s.history + [AllWritten]))
  {
    LogSnoc(s.history, AllWritten);
    AppendReport(s.history);
  }

  /** Sends alone leave no close call unanswered, as long as data is queued or nobody closes. */
  lemma SendsObeyed(s: State, t: State)
    requires Obeyed(s) && Quietly(s.history, t.history) && t.closing == s.closing
    requires t.queue != [] || !s.closing
    ensures Obeyed(t)
  {
    Appended(s.history, t.history);
    forall i | 0 <= i < |t.history| && t.history[i].CloseCalled?
      ensures ShutAfter(t.history, i) || (t.closing && t.queue != [])
    {
      assert s.history[i].CloseCalled?;
    }
  }

  lemma FlushObeyed(sock: Socket, s: State, replies: seq<Reply>)
    requires Inv(sock, s) && Obeyed(s) && s.draining
    ensures var t := FlushAll(sock, s, replies).0; Inv(sock, t) && ((t.queue == [] && t.closing) || Obeyed(t))
  {
    var t := FlushAll(sock, s, replies).0;
    FlushQuietly(sock, s, replies);
    FlushFlags(sock, s, replies);
    FlushKeeps(sock, s, replies);
    if t.queue != [] || !s.closing {
      SendsObeyed(s, t);
    }
  }

  lemma DrainObeyed(sock: Socket, s: State, replies: seq<Reply>, w: seq<Op>, a: seq<Op>)
    requires Inv(sock, s) && Obeyed(s) && s.draining
    ensures Obeyed(DoWritable(sock, s, replies, w, a))
  {
    FlushObeyed(sock, s, replies);
    AfterObeyed(sock, FlushAll(sock, s, replies).0, a);
  }

  lemma StepObeyed(sock: Socket, s: State, e: Event)
    requires Inv(sock, s) && Obeyed(s)
    ensures Obeyed(Step(sock, s, e))
  {
    match e
    case App(op) => OpObeyed(sock, s, op);
    case Writable(replies, w, a) =>
      if s.draining {
        DrainObeyed(sock, s, replies, w, a);
      } else if s.onWritable {
        OpsKeep(sock, s, w);
        OpsObeyed(sock, s, w);
        AfterObeyed(sock, DoOps(sock, s, w), a);
      } else {
        AfterObeyed(sock, s, a);
      }
  }

  lemma {:induction false} RunObeyed(sock: Socket, events: seq<Event>)
    ensures Obeyed(Run(sock, events))
    decreases |events|
  {
    if events != [] {
      var n := |events| - 1;
      RunObeyed(sock, events[..n]);
      StepObeyed(sock, Run(sock, events[..n]), events[n]);
    }
  }

  /** In every run, once the queue is empty every close call has been followed by the shutdown of
      the transport; until then the flow remembers it. */
  lemma CloseIsHonoured(sock: Socket, events: seq<Event>)
    ensures var s := Run(sock, events);
            forall i :: 0 <= i < |s.history| && s.history[i].CloseCalled? ==>
              (exists j :: i < j < |s.history| && s.history[j].Shutdown?) || (s.queue != [] && s.closing)
  {
    RunObeyed(sock, events);
    ObeyedMeans(Run(sock, events));
  }

  lemma ObeyedMeans(s: State)
    requires Obeyed(s)
    ensures forall i :: 0 <= i < |s.history| && s.history[i].CloseCalled? ==>
              (exists j :: i < j < |s.history| && s.history[j].Shutdown?) || (s.queue != [] && s.closing)
  {
    forall i | 0 <= i < |s.history| && s.history[i].CloseCalled? && (s.queue == [] || !s.closing)
      ensures exists j :: i < j < |s.history| && s.history[j].Shutdown?
    {
      assert ShutAfter(s.history, i);
    }
  }
}
