/**
 Which events a socket is polled for: the union of what its flows need, recomputed after writes,
 changes of callbacks and poll steps. Every flow carries its write path.
 */
module PollEvents {
  import opened Types
  import W = WriteSpec
  import P = WriteProofs

  /** The callbacks that make a flow interested in reading. */
  datatype Interest = Interest(readable: bool, close: bool, status: bool, failure: bool)

  datatype Flow = Flow(
    sock: W.Socket, write: W.State, wants: Interest, firstWritePending: bool, polling: bool)
  {
    predicate NeedsWrite() {
      write.onWritable || (sock.stack == W.SCTP && firstWritePending) || write.draining
    }

    predicate NeedsRead(wait: bool) {
      || wants.readable
      || (sock.stack == W.SCTP && (wants.close || wants.status || wants.failure))
      || wait
    }
  }

  /** A socket: its flows, one unless it is a multistream association; whether it waits for SCTP
      notifications; and the events the handle is registered for. */
  datatype Socket = Socket(
    flows: seq<Flow>, wait: bool, received: bool, closing: bool, readable: bool, writable: bool)

  // ---------------------------------------------------------------- registration

  /** nt_update_poll_handle: nothing happens without flows or on a closing handle. */
  ghost function Update(s: Socket): Socket {
    if s.flows == [] || s.closing then s
    else s.(flows := Polled(s.flows, s.wait), readable := AnyRead(s.flows, s.wait), writable := AnyWrite(s.flows))
  }

  ghost predicate AnyRead(flows: seq<Flow>, wait: bool) { exists i :: 0 <= i < |flows| && flows[i].NeedsRead(wait) }

  ghost predicate AnyWrite(flows: seq<Flow>) { exists i :: 0 <= i < |flows| && flows[i].NeedsWrite() }

  function Polled(flows: seq<Flow>, wait: bool): (r: seq<Flow>)
    ensures |r| == |flows|
    ensures forall i :: 0 <= i < |flows| ==>
              r[i] == flows[i].(polling := flows[i].NeedsRead(wait) || flows[i].NeedsWrite())
  {
    seq(|flows|, i requires 0 <= i < |flows| =>
          flows[i].(polling := flows[i].NeedsRead(wait) || flows[i].NeedsWrite()))
  }

  /** The registration is what the flows need. */
  ghost predicate Registered(s: Socket) {
    s.flows != [] && !s.closing ==>
      && s.readable == AnyRead(s.flows, s.wait)
      && s.writable == AnyWrite(s.flows)
      && forall i :: 0 <= i < |s.flows| ==>
           s.flows[i].polling == (s.flows[i].NeedsRead(s.wait) || s.flows[i].NeedsWrite())
  }

  /** No event that a flow needs is missing, and flows know whether they are polled. */
  ghost predicate Covered(s: Socket) {
    s.flows != [] && !s.closing ==>
      && (AnyRead(s.flows, s.wait) ==> s.readable)
      && (AnyWrite(s.flows) ==> s.writable)
      && forall i :: 0 <= i < |s.flows| ==>
           s.flows[i].polling == (s.flows[i].NeedsRead(s.wait) || s.flows[i].NeedsWrite())
  }

  lemma UpdateRegisters(s: Socket)
    ensures Registered(Update(s)) && Covered(Update(s))
  {
    if s.flows != [] && !s.closing {
      var t := Update(s);
      assert forall i :: 0 <= i < |s.flows| ==>
          && t.flows[i].NeedsRead(s.wait) == s.flows[i].NeedsRead(s.wait)
          && t.flows[i].NeedsWrite() == s.flows[i].NeedsWrite();
      assert AnyRead(s.flows, s.wait) ==> AnyRead(t.flows, s.wait);
      assert AnyWrite(s.flows) ==> AnyWrite(t.flows);
    }
  }

  // ---------------------------------------------------------------- steps

  /** A call on a flow; `wants` matters only when callbacks are set. */
  datatype Call = Call(op: W.Op, wants: Interest)

  function OnFlow(f: Flow, c: Call): Flow {
    f.(write := W.DoOp(f.sock, f.write, c.op), wants := if c.op.SetOps? then c.wants else f.wants)
  }

  /** Failed writes return early, and a shutdown does not look at the poll handle. */
  predicate Updates(f: Flow, c: Call) {
    match c.op
    case Write(_, _, _, _, _) => W.DoWrite(f.sock, f.write, c.op).1 == W.Ok
    case Close => false
    case SetOps(_, _) => true
  }

  ghost function DoCall(s: Socket, i: nat, c: Call): Socket {
    if i >= |s.flows| then s
    else
      var t := s.(flows := s.flows[i := OnFlow(s.flows[i], c)]);
      if Updates(s.flows[i], c) then Update(t) else t
  }

  /** What happens to one flow in a poll step: the calls its callbacks make on itself and on other
      flows, the answers of the kernel, and what reading does to the wait for notifications. */
  datatype Script = Script(
    connected: seq<Call>, replies: seq<W.Reply>, inWritable: seq<W.Op>, inAllWritten: seq<W.Op>,
    inReadable: seq<Call>, others: seq<(nat, Call)>, received: bool, stop: bool)

  ghost function Calls(s: Socket, i: nat, cs: seq<Call>): Socket
    decreases |cs|
  {
    if cs == [] then s else Calls(DoCall(s, i, cs[0]), i, cs[1..])
  }

  ghost function Others(s: Socket, cs: seq<(nat, Call)>): Socket
    decreases |cs|
  {
    if cs == [] then s else Others(DoCall(s, cs[0].0, cs[0].1), cs[1..])
  }

  ghost predicate Sound(s: Socket) {
    forall i :: 0 <= i < |s.flows| ==> P.Inv(s.flows[i].sock, s.flows[i].write)
  }

  /** The new-flow and writable parts of uvpollable_cb for one flow. */
  ghost function ServeWritable(s: Socket, i: nat, x: Script): (r: Socket)
    requires Sound(s) && i < |s.flows|
    ensures Sound(r) && |r.flows| == |s.flows|
  {
    var f := s.flows[i];
    var first := s.(flows := s.flows[i := f.(firstWritePending := false)]);
    CallsSound(first, i, x.connected);
    var s1 := if f.firstWritePending then Calls(first, i, x.connected) else s;
    var g := s1.flows[i];
    P.StepKeeps(g.sock, g.write, W.Writable(x.replies, x.inWritable, x.inAllWritten));
    s1.(flows := s1.flows[i := g.(write := W.DoWritable(g.sock, g.write, x.replies, x.inWritable, x.inAllWritten))])
  }

  ghost function ServeReadable(s: Socket, i: nat, x: Script): (r: Socket)
    requires Sound(s)
    ensures Sound(r) && |r.flows| == |s.flows|
  {
    var t := s.(received := s.received || x.received);
    CallsSound(t, i, x.inReadable);
    Calls(t, i, x.inReadable)
  }

  /** One flow of uvpollable_cb. */
  ghost function Serve(s: Socket, i: nat, readable: bool, writable: bool, x: Script): (r: Socket)
    requires Sound(s) && i < |s.flows|
    ensures Sound(r) && |r.flows| == |s.flows|
  {
    var s1 := if writable then ServeWritable(s, i, x) else s;
    var s2 := if readable then ServeReadable(s1, i, x) else s1;
    OthersSound(s2, x.others);
    Others(s2, x.others)
  }

  /** The loop of uvpollable_cb; a failed or empty read ends it. */
  ghost function ServeFrom(s: Socket, i: nat, readable: bool, writable: bool, xs: seq<Script>): (r: Socket)
    requires Sound(s)
    ensures Sound(r) && |r.flows| == |s.flows|
    decreases |xs|
  {
    if i >= |s.flows| || xs == [] then s
    else
      var r := Serve(s, i, readable, writable, xs[0]);
      if readable && xs[0].stop then r else ServeFrom(r, i + 1, readable, writable, xs[1..])
  }

  /** uvpollable_cb with a good status: while the socket waits for notifications only reading goes
      on, and only reading data or a notification seen before ends the wait. */
  ghost function DoPoll(
      s: Socket, readable: bool, writable: bool, xs: seq<Script>, gotData: bool, gotEvent: bool): Socket
    requires Sound(s)
  {
    if s.flows == [] then s
    else if s.wait then
      if readable then Update(s.(wait := !gotData, received := s.received || gotEvent))
      else Update(s.(wait := !s.received))
    else Update(ServeFrom(s, 0, readable, writable, xs))
  }

  datatype Event =
    | CallOn(i: nat, call: Call)
    | Poll(readable: bool, writable: bool, xs: seq<Script>, gotData: bool, gotEvent: bool)
    | Join(sock: W.Socket, ops: Call, xs: seq<Script>)
    | Leave(i: nat)
    | CloseHandle

  /** A new flow of an association is written to at once. */
  function NewFlow(sock: W.Socket, ops: Call): Flow {
    Flow(sock, W.Fresh().(onWritable := ops.op.SetOps? && ops.op.writable,
          onAllWritten := ops.op.SetOps? && ops.op.allWritten),
         ops.wants, true, true)
  }

  /** nt_free_flow takes a flow off the list and leaves the registration alone; the last one closes
      the handle. */
  function DoLeave(s: Socket, i: nat): Socket
    requires i < |s.flows|
  {
    s.(flows := s.flows[..i] + s.flows[i + 1..], closing := s.closing || |s.flows| == 1)
  }

  ghost function Step(s: Socket, e: Event): Socket
    requires Sound(s)
  {
    match e
    case CallOn(i, c) => DoCall(s, i, c)
    case Poll(r, w, xs, d, n) => DoPoll(s, r, w, xs, d, n)
    case Join(sock, ops, xs) =>
      var t := s.(flows := [NewFlow(sock, ops)] + s.flows);
      NewFlowSound(s, sock, ops);
      DoPoll(t, false, true, xs, false, false)
    case Leave(i) => if i < |s.flows| then DoLeave(s, i) else s
    case CloseHandle => s.(closing := true)
  }

  lemma NewFlowSound(s: Socket, sock: W.Socket, ops: Call)
    requires Sound(s)
    ensures Sound(s.(flows := [NewFlow(sock, ops)] + s.flows))
  {
    FreshInv(sock);
    var f := NewFlow(sock, ops);
    assert P.Inv(sock, f.write);
  }

  lemma FreshInv(sock: W.Socket)
    ensures P.Inv(sock, W.Fresh())
  {
    assert P.Run(sock, []) == W.Fresh();
  }

  // ---------------------------------------------------------------- what steps keep

  lemma UpdateSound(s: Socket)
    requires Sound(s)
    ensures Sound(Update(s)) && |Update(s).flows| == |s.flows|
  {
  }

  lemma CallSound(s: Socket, i: nat, c: Call)
    requires Sound(s)
    ensures Sound(DoCall(s, i, c)) && |DoCall(s, i, c).flows| == |s.flows|
  {
    if i < |s.flows| {
      P.OpKeeps(s.flows[i].sock, s.flows[i].write, c.op);
      UpdateSound(s.(flows := s.flows[i := OnFlow(s.flows[i], c)]));
    }
  }

  lemma {:induction false} CallsSound(s: Socket, i: nat, cs: seq<Call>)
    requires Sound(s)
    ensures Sound(Calls(s, i, cs)) && |Calls(s, i, cs).flows| == |s.flows|
    decreases |cs|
  {
    if cs != [] {
      CallSound(s, i, cs[0]);
      CallsSound(DoCall(s, i, cs[0]), i, cs[1..]);
    }
  }

  lemma {:induction false} OthersSound(s: Socket, cs: seq<(nat, Call)>)
    requires Sound(s)
    ensures Sound(Others(s, cs)) && |Others(s, cs).flows| == |s.flows|
    decreases |cs|
  {
    if cs != [] {
      CallSound(s, cs[0].0, cs[0].1);
      OthersSound(DoCall(s, cs[0].0, cs[0].1), cs[1..]);
    }
  }

  /** A call that does not update the registration does not change what its flow needs. */
  lemma SilentCall(f: Flow, c: Call, wait: bool)
    requires !Updates(f, c)
    ensures OnFlow(f, c).NeedsWrite() == f.NeedsWrite() && OnFlow(f, c).NeedsRead(wait) == f.NeedsRead(wait)
    ensures OnFlow(f, c).polling == f.polling
  {
    if c.op.Write? {
      P.FailedWriteInert(f.sock, f.write, c.op);
    }
  }

  lemma CallRegisters(s: Socket, i: nat, c: Call)
    requires Covered(s)
    ensures Covered(DoCall(s, i, c))
    ensures Registered(s) || (i < |s.flows| && Updates(s.flows[i], c)) ==> Registered(DoCall(s, i, c))
  {
    if i < |s.flows| {
      var t := s.(flows := s.flows[i := OnFlow(s.flows[i], c)]);
      if Updates(s.flows[i], c) {
        UpdateRegisters(t);
      } else {
        SilentCall(s.flows[i], c, s.wait);
        assert forall j :: 0 <= j < |s.flows| ==>
            && t.flows[j].NeedsRead(s.wait) == s.flows[j].NeedsRead(s.wait)
            && t.flows[j].NeedsWrite() == s.flows[j].NeedsWrite();
        SameNeeds(s, t);
      }
    }
  }

  lemma SameNeeds(s: Socket, t: Socket)
    requires |s.flows| == |t.flows| && s.wait == t.wait
    requires forall j :: 0 <= j < |s.flows| ==>
               && t.flows[j].NeedsRead(s.wait) == s.flows[j].NeedsRead(s.wait)
               && t.flows[j].NeedsWrite() == s.flows[j].NeedsWrite()
    ensures AnyRead(s.flows, s.wait) == AnyRead(t.flows, t.wait)
    ensures AnyWrite(s.flows) == AnyWrite(t.flows)
  {
  }

  ghost predicate Inv(s: Socket) { Sound(s) && Covered(s) }

  lemma LeaveKeeps(s: Socket, i: nat)
    requires Inv(s) && i < |s.flows|
    ensures Inv(DoLeave(s, i))
  {
    var t := DoLeave(s, i);
    assert forall j :: 0 <= j < |t.flows| ==> t.flows[j] == s.flows[if j < i then j else j + 1];
  }

  /** No flow but the one that leaves needs some event that it needs. */
  ghost predicate LastToNeed(s: Socket, i: nat)
    requires i < |s.flows|
  {
    || (s.flows[i].NeedsWrite() && !OtherWrites(s, i))
    || (s.flows[i].NeedsRead(s.wait) && !OtherReads(s, i))
  }

  ghost predicate OtherWrites(s: Socket, i: nat) { exists j :: 0 <= j < |s.flows| && j != i && s.flows[j].NeedsWrite() }

  ghost predicate OtherReads(s: Socket, i: nat) {
    exists j :: 0 <= j < |s.flows| && j != i && s.flows[j].NeedsRead(s.wait)
  }

  lemma Stays(s: Socket, i: nat, j: nat)
    requires i < |s.flows| && j < |s.flows| && j != i
    ensures s.flows[j] in DoLeave(s, i).flows
  {
    assert DoLeave(s, i).flows[if j < i then j else j - 1] == s.flows[j];
  }

  lemma WritesLeft(s: Socket, i: nat)
    requires i < |s.flows|
    ensures AnyWrite(DoLeave(s, i).flows) <==> OtherWrites(s, i)
  {
    var t := DoLeave(s, i);
    if OtherWrites(s, i) {
      var j :| 0 <= j < |s.flows| && j != i && s.flows[j].NeedsWrite();
      Stays(s, i, j);
    }
    if AnyWrite(t.flows) {
      var j :| 0 <= j < |t.flows| && t.flows[j].NeedsWrite();
      assert s.flows[if j < i then j else j + 1].NeedsWrite();
    }
  }

  lemma ReadsLeft(s: Socket, i: nat)
    requires i < |s.flows|
    ensures AnyRead(DoLeave(s, i).flows, s.wait) <==> OtherReads(s, i)
  {
    var t := DoLeave(s, i);
    if OtherReads(s, i) {
      var j :| 0 <= j < |s.flows| && j != i && s.flows[j].NeedsRead(s.wait);
      Stays(s, i, j);
    }
    if AnyRead(t.flows, s.wait) {
      var j :| 0 <= j < |t.flows| && t.flows[j].NeedsRead(s.wait);
      assert s.flows[if j < i then j else j + 1].NeedsRead(s.wait);
    }
  }

  /** A flow that leaves makes an exact registration stale exactly when it was the last to need some
      event; the next update mends it. */
  lemma StaleIff(s: Socket, i: nat)
    requires Registered(s) && i < |s.flows| && |s.flows| > 1 && !s.closing
    ensures Registered(DoLeave(s, i)) <==> !LastToNeed(s, i)
  {
    WritesLeft(s, i);
    ReadsLeft(s, i);
    assert AnyWrite(s.flows) <==> s.flows[i].NeedsWrite() || OtherWrites(s, i);
    assert AnyRead(s.flows, s.wait) <==> s.flows[i].NeedsRead(s.wait) || OtherReads(s, i);
    var t := DoLeave(s, i);
    forall j | 0 <= j < |t.flows|
      ensures t.flows[j].polling == (t.flows[j].NeedsRead(s.wait) || t.flows[j].NeedsWrite()) {
      assert t.flows[j] == s.flows[if j < i then j else j + 1];
    }
  }

  /** A poll step leaves an exact registration, whatever it found. */
  lemma PollKeeps(s: Socket, r: bool, w: bool, xs: seq<Script>, d: bool, n: bool)
    requires Sound(s)
    ensures Inv(DoPoll(s, r, w, xs, d, n)) && Registered(DoPoll(s, r, w, xs, d, n))
  {
    var t :=
      if s.wait then
        if r then s.(wait := !d, received := s.received || n) else s.(wait := !s.received)
      else ServeFrom(s, 0, r, w, xs);
    UpdateSound(t);
    UpdateRegisters(t);
  }

  lemma StepKeeps(s: Socket, e: Event)
    requires Inv(s)
    ensures Inv(Step(s, e))
  {
    match e
    case CallOn(i, c) =>
      CallSound(s, i, c);
      CallRegisters(s, i, c);
    case Poll(r, w, xs, d, n) => PollKeeps(s, r, w, xs, d, n);
    case Join(sock, ops, xs) =>
      NewFlowSound(s, sock, ops);
      PollKeeps(s.(flows := [NewFlow(sock, ops)] + s.flows), false, true, xs, false, false);
    case Leave(i) =>
      if i < |s.flows| { LeaveKeeps(s, i); }
    case CloseHandle =>
  }

  /** A socket starts with one flow, or waiting for notifications, and its first registration. */
  ghost function Start(sock: W.Socket, ops: Call, wait: bool): (s: Socket)
    ensures Inv(s)
  {
    FreshInv(sock);
    var s := Socket([NewFlow(sock, ops)], wait, false, false, false, false);
    UpdateSound(s);
    UpdateRegisters(s);
    Update(s)
  }

  ghost function Run(sock: W.Socket, ops: Call, wait: bool, events: seq<Event>): (s: Socket)
    ensures Inv(s)
    decreases |events|
  {
    if events == [] then Start(sock, ops, wait)
    else
      var n := |events| - 1;
      var s := Run(sock, ops, wait, events[..n]);
      StepKeeps(s, events[n]);
      Step(s, events[n])
  }

  /** The flow is to hear that the socket is writable: the application asked to, data is waiting, or an
      SCTP flow has not been connected yet. */
  ghost predicate MustWrite(f: Flow) {
    f.write.onWritable || f.write.queue != [] || (f.sock.stack == W.SCTP && f.firstWritePending)
  }

  /** The flow is to hear that the socket is readable: the application reads, wants to know what SCTP
      notifications tell, or the socket waits for one. */
  ghost predicate MustRead(f: Flow, wait: bool) {
    || f.wants.readable || wait
    || (f.sock.stack == W.SCTP && f.wants != f.wants.(close := false, status := false, failure := false))
  }

  lemma NeedsAreMusts(f: Flow, wait: bool)
    requires P.Inv(f.sock, f.write)
    ensures f.NeedsWrite() <==> MustWrite(f)
    ensures f.NeedsRead(wait) <==> MustRead(f, wait)
  {
  }

  /** In every run of a handle that is not closing, whatever a flow must hear of is registered, and the
      flow knows that it is polled. */
  lemma NoLostWakeup(sock: W.Socket, ops: Call, wait: bool, events: seq<Event>)
    ensures var s := Run(sock, ops, wait, events);
            s.flows != [] && !s.closing ==> forall i :: 0 <= i < |s.flows| ==>
              && (MustWrite(s.flows[i]) ==> s.writable && s.flows[i].polling)
              && (MustRead(s.flows[i], s.wait) ==> s.readable && s.flows[i].polling)
  {
    var s := Run(sock, ops, wait, events);
    if s.flows != [] && !s.closing {
      forall i | 0 <= i < |s.flows|
        ensures s.flows[i].NeedsWrite() <==> MustWrite(s.flows[i])
        ensures s.flows[i].NeedsRead(s.wait) <==> MustRead(s.flows[i], s.wait)
      {
        NeedsAreMusts(s.flows[i], s.wait);
      }
    }
  }

  ghost predicate NobodyLeft(events: seq<Event>) { forall i :: 0 <= i < |events| ==> !events[i].Leave? }

  /** In every run in which no flow left, the handle is registered for exactly what its flows must hear
      of, so it is never polled for nothing. */
  lemma ExactRegistration(sock: W.Socket, ops: Call, wait: bool, events: seq<Event>)
    requires NobodyLeft(events)
    ensures var s := Run(sock, ops, wait, events);
            s.flows != [] && !s.closing ==>
              && (s.writable <==> exists i :: 0 <= i < |s.flows| && MustWrite(s.flows[i]))
              && (s.readable <==> exists i :: 0 <= i < |s.flows| && MustRead(s.flows[i], s.wait))
  {
    var s := Run(sock, ops, wait, events);
    RunRegistered(sock, ops, wait, events);
    forall i | 0 <= i < |s.flows|
      ensures s.flows[i].NeedsWrite() <==> MustWrite(s.flows[i])
      ensures s.flows[i].NeedsRead(s.wait) <==> MustRead(s.flows[i], s.wait)
    {
      NeedsAreMusts(s.flows[i], s.wait);
    }
  }

  lemma {:induction false} RunRegistered(sock: W.Socket, ops: Call, wait: bool, events: seq<Event>)
    requires NobodyLeft(events)
    ensures Registered(Run(sock, ops, wait, events))
    decreases |events|
  {
    if events == [] {
      UpdateRegisters(Socket([NewFlow(sock, ops)], wait, false, false, false, false));
    } else {
      var n := |events| - 1;
      RunRegistered(sock, ops, wait, events[..n]);
      ExactStep(Run(sock, ops, wait, events[..n]), events[n]);
    }
  }

  lemma ExactStep(s: Socket, e: Event)
    requires Inv(s) && Registered(s) && !e.Leave?
    ensures Registered(Step(s, e))
  {
    match e
    case CallOn(i, c) => CallRegisters(s, i, c);
    case Poll(r, w, xs, d, n) => PollKeeps(s, r, w, xs, d, n);
    case Join(sock, ops, xs) =>
      NewFlowSound(s, sock, ops);
      PollKeeps(s.(flows := [NewFlow(sock, ops)] + s.flows), false, true, xs, false, false);
    case CloseHandle =>
  }

  // ---------------------------------------------------------------- a stale registration

  /** An SCTP socket and an application without callbacks. */
  const PLAIN := W.Socket(W.SCTP, true, 0, 0, 10, 0)
  const NOTHING := Interest(false, false, false, false)
  const NO_CALLBACKS := Call(W.SetOps(false, false), NOTHING)
  const IDLE := Flow(PLAIN, W.Fresh(), NOTHING, false, false)
  const QUIET := Script([], [], [], [], [], [], false, false)
  const BLOCKED_WRITE := Call(W.Write(false, 0, false, [7], W.WouldBlock), NOTHING)

  /** The run: a second flow joins, writes against a full socket, and leaves. */
  const STALE_RUN := [Join(PLAIN, NO_CALLBACKS, [QUIET, QUIET]), CallOn(0, BLOCKED_WRITE), Leave(0)]

  ghost function Two(f: Flow, g: Flow, writable: bool): Socket { Socket([f, g], false, false, false, false, writable) }

  /** A flow that was just connected and asks for nothing. */
  lemma ServeQuietly(s: Socket, i: nat)
    requires Sound(s) && i < |s.flows| && s.flows[i].write == W.Fresh()
    ensures Serve(s, i, false, true, QUIET) == s.(flows := s.flows[i := s.flows[i].(firstWritePending := false)])
  {
    var f := s.flows[i];
    assert s.flows[i := f] == s.flows;
  }

  lemma Joined(s: Socket)
    requires s.flows == [NewFlow(PLAIN, NO_CALLBACKS)] && !s.wait && !s.closing && !s.received && Sound(s)
    ensures Step(s, STALE_RUN[0]) == Two(IDLE, IDLE, false)
  {
    var joined := NewFlow(PLAIN, NO_CALLBACKS);
    var t := s.(flows := [joined] + s.flows);
    NewFlowSound(s, PLAIN, NO_CALLBACKS);
    ServeQuietly(t, 0);
    var u := Serve(t, 0, false, true, QUIET);
    ServeQuietly(u, 1);
    var v := Serve(u, 1, false, true, QUIET);
    assert [QUIET, QUIET][1..] == [QUIET] && [QUIET][1..] == [];
    assert ServeFrom(v, 2, false, true, []) == v;
    assert ServeFrom(u, 1, false, true, [QUIET]) == ServeFrom(v, 2, false, true, []);
    assert ServeFrom(t, 0, false, true, [QUIET, QUIET]) == ServeFrom(u, 1, false, true, [QUIET]);
    var f := joined.(firstWritePending := false);
    assert v.flows == [f, f];
    assert !v.flows[0].NeedsWrite() && !v.flows[1].NeedsWrite();
    assert !v.flows[0].NeedsRead(false) && !v.flows[1].NeedsRead(false);
    assert Polled(v.flows, false) == [IDLE, IDLE];
  }

  lemma Wrote()
    ensures var s := Step(Two(IDLE, IDLE, false), STALE_RUN[1]);
            && s.flows == [s.flows[0], IDLE] && s.flows[0].write.draining && s.writable && !s.closing
  {
    var s := Two(IDLE, IDLE, false);
    var f := OnFlow(IDLE, BLOCKED_WRITE);
    assert f.write.draining && Updates(IDLE, BLOCKED_WRITE);
    var t := s.(flows := s.flows[0 := f]);
    assert t.flows == [f, IDLE] && t.flows[0].NeedsWrite();
    assert Polled(t.flows, false)[1] == IDLE;
  }

  lemma RunStep(sock: W.Socket, ops: Call, wait: bool, events: seq<Event>, e: Event)
    ensures Run(sock, ops, wait, events + [e]) == Step(Run(sock, ops, wait, events), e)
  {
    assert (events + [e])[..|events|] == events;
  }

  lemma Started()
    ensures var s := Run(PLAIN, NO_CALLBACKS, false, []);
            s.flows == [NewFlow(PLAIN, NO_CALLBACKS)] && !s.wait && !s.closing && !s.received && Sound(s)
  {
    var f := NewFlow(PLAIN, NO_CALLBACKS);
    assert f.NeedsWrite();
    assert Polled([f], false) == [f];
  }

  lemma Left(s: Socket)
    requires |s.flows| == 2 && s.flows[1] == IDLE && s.writable && !s.closing
    ensures var t := DoLeave(s, 0); t.flows == [IDLE] && !t.closing && t.writable && !Registered(t)
  {
    assert !IDLE.NeedsWrite();
    assert !AnyWrite([IDLE]);
  }

  lemma AfterJoin()
    ensures Run(PLAIN, NO_CALLBACKS, false, STALE_RUN[..1]) == Two(IDLE, IDLE, false)
  {
    Started();
    Joined(Run(PLAIN, NO_CALLBACKS, false, []));
    RunStep(PLAIN, NO_CALLBACKS, false, [], STALE_RUN[0]);
    assert [] + [STALE_RUN[0]] == STALE_RUN[..1];
  }

  lemma AfterWrite()
    ensures Sound(Two(IDLE, IDLE, false))
    ensures Run(PLAIN, NO_CALLBACKS, false, STALE_RUN[..2]) == Step(Two(IDLE, IDLE, false), STALE_RUN[1])
  {
    AfterJoin();
    RunStep(PLAIN, NO_CALLBACKS, false, STALE_RUN[..1], STALE_RUN[1]);
    assert STALE_RUN[..1] + [STALE_RUN[1]] == STALE_RUN[..2];
  }

  lemma AfterLeave(s: Socket)
    requires s == Run(PLAIN, NO_CALLBACKS, false, STALE_RUN[..2]) && |s.flows| == 2
    ensures Run(PLAIN, NO_CALLBACKS, false, STALE_RUN) == DoLeave(s, 0)
  {
    RunStep(PLAIN, NO_CALLBACKS, false, STALE_RUN[..2], STALE_RUN[2]);
    assert STALE_RUN[..2] + [STALE_RUN[2]] == STALE_RUN;
  }

  /** In this run the socket ends up registered for writing, which nobody needs any more. */
  lemma StaleExample()
    ensures var s := Run(PLAIN, NO_CALLBACKS, false, STALE_RUN);
            s.flows == [IDLE] && !s.closing && s.writable && !Registered(s)
  {
    AfterWrite();
    Wrote();
    var s := Step(Two(IDLE, IDLE, false), STALE_RUN[1]);
    Left(s);
    AfterLeave(s);
  }

  // ---------------------------------------------------------------- in place

  class PollHandle {
    var flows: seq<Flow>
    var wait: bool
    var received: bool
    var closing: bool
    var readable: bool
    var writable: bool

    ghost function Model(): Socket reads this { Socket(flows, wait, received, closing, readable, writable) }

    /** nt_update_poll_handle: one pass over the flows collects the events. */
    method UpdatePollHandle()
      modifies this
      ensures Model() == Update(old(Model())) && Registered(Model())
    {
      UpdateRegisters(Model());
      if flows == [] || closing {
        return;
      }
      readable, writable, flows := Collect(flows, wait);
    }
  }

  method Collect(flows: seq<Flow>, wait: bool) returns (read: bool, write: bool, polled: seq<Flow>)
    ensures read == AnyRead(flows, wait) && write == AnyWrite(flows) && polled == Polled(flows, wait)
  {
    read, write, polled := false, false, [];
    var i := 0;
    while i < |flows|
      invariant i <= |flows| && |polled| == i
      invariant forall j :: 0 <= j < i ==> polled[j] == Polled(flows, wait)[j]
      invariant read <==> exists j :: 0 <= j < i && flows[j].NeedsRead(wait)
      invariant write <==> exists j :: 0 <= j < i && flows[j].NeedsWrite()
    {
      var r, w := Inspect(flows[i], wait);
      read, write := read || r, write || w;
      polled := polled + [flows[i].(polling := r || w)];
      i := i + 1;
    }
  }

  method Inspect(f: Flow, wait: bool) returns (read: bool, write: bool)
    ensures read == f.NeedsRead(wait) && write == f.NeedsWrite()
  {
    read, write := false, false;
    if f.wants.readable || (f.sock.stack == W.SCTP && (f.wants.close || f.wants.status || f.wants.failure)) {
      read := true;
    }
    if f.write.onWritable || (f.sock.stack == W.SCTP && f.firstWritePending) {
      write := true;
    }
    if f.write.draining {
      write := true;
    }
    if wait {
      read := true;
    }
  }
}
