/**
 What calls and poll steps do to the flows of a socket: a call acts on its flow, a writable socket
 serves every flow, and a socket that waits for notifications serves none.
 */
module PollSteps {
  import opened Types
  import W = WriteSpec
  import P = WriteProofs
  import opened PollEvents

  /** The flow apart from the flag that says whether it is polled. */
  function Bare(f: Flow): Flow { f.(polling := false) }

  /** The flows are the same but for that flag. */
  ghost predicate SameFlows(a: seq<Flow>, b: seq<Flow>) {
    |a| == |b| && forall i :: 0 <= i < |a| ==> Bare(a[i]) == Bare(b[i])
  }

  lemma UpdateSame(s: Socket)
    ensures var t := Update(s);
            && SameFlows(s.flows, t.flows)
            && t.wait == s.wait && t.received == s.received && t.closing == s.closing
  {
  }

  /** A call changes its flow alone: the write path takes the call, and setting callbacks also sets what
      the flow wants to read. */
  lemma CallActs(s: Socket, i: nat, c: Call)
    requires Sound(s) && i < |s.flows|
    ensures var t := Step(s, CallOn(i, c));
            var f := s.flows[i];
            && |t.flows| == |s.flows|
            && t.flows[i].write == W.Step(f.sock, f.write, W.App(c.op))
            && t.flows[i].wants == (if c.op.SetOps? then c.wants else f.wants)
            && (forall j :: 0 <= j < |s.flows| && j != i ==> Bare(t.flows[j]) == Bare(s.flows[j]))
  {
    UpdateSame(s.(flows := s.flows[i := OnFlow(s.flows[i], c)]));
  }

  /** A socket that waits for notifications only reads: data, or a notification that was seen when
      nothing is readable, ends the wait; its flows are not served. */
  lemma WaitingPoll(s: Socket, readable: bool, writable: bool, xs: seq<Script>, gotData: bool, gotEvent: bool)
    requires Sound(s) && s.wait && s.flows != []
    ensures var t := Step(s, Poll(readable, writable, xs, gotData, gotEvent));
            && SameFlows(s.flows, t.flows)
            && (t.wait <==> if readable then !gotData else !s.received)
            && (t.received <==> s.received || (readable && gotEvent))
  {
    UpdateSame(s.(wait := !gotData, received := s.received || gotEvent));
    UpdateSame(s.(wait := !s.received));
  }

  // ---------------------------------------------------------------- flows without registration

  /** The flows alone, with sound write paths. */
  ghost predicate SoundFlows(fs: seq<Flow>) {
    forall i :: 0 <= i < |fs| ==> P.Inv(fs[i].sock, fs[i].write)
  }

  /** A call on flow `i`. */
  ghost function Called(fs: seq<Flow>, i: nat, c: Call): (r: seq<Flow>)
    requires SoundFlows(fs)
    ensures SoundFlows(r) && |r| == |fs|
  {
    if i >= |fs| then fs
    else
      var f := fs[i];
      P.StepKeeps(f.sock, f.write, W.App(c.op));
      fs[i := f.(write := W.Step(f.sock, f.write, W.App(c.op)), wants := if c.op.SetOps? then c.wants else f.wants)]
  }

  ghost function CalledAll(fs: seq<Flow>, i: nat, cs: seq<Call>): (r: seq<Flow>)
    requires SoundFlows(fs)
    ensures SoundFlows(r) && |r| == |fs|
    decreases |cs|
  {
    if cs == [] then fs else CalledAll(Called(fs, i, cs[0]), i, cs[1..])
  }

  ghost function CalledOthers(fs: seq<Flow>, cs: seq<(nat, Call)>): (r: seq<Flow>)
    requires SoundFlows(fs)
    ensures SoundFlows(r) && |r| == |fs|
    decreases |cs|
  {
    if cs == [] then fs else CalledOthers(Called(fs, cs[0].0, cs[0].1), cs[1..])
  }

  /** A new flow is told that it is connected. */
  ghost function Greeted(fs: seq<Flow>, i: nat, x: Script): (r: seq<Flow>)
    requires SoundFlows(fs) && i < |fs|
    ensures SoundFlows(r) && |r| == |fs|
  {
    if fs[i].firstWritePending then CalledAll(fs[i := fs[i].(firstWritePending := false)], i, x.connected) else fs
  }

  /** A flow gets its writable event. */
  ghost function Written(fs: seq<Flow>, i: nat, x: Script): (r: seq<Flow>)
    requires SoundFlows(fs) && i < |fs|
    ensures SoundFlows(r) && |r| == |fs|
  {
    var f := fs[i];
    var e := W.Writable(x.replies, x.inWritable, x.inAllWritten);
    P.StepKeeps(f.sock, f.write, e);
    fs[i := f.(write := W.Step(f.sock, f.write, e))]
  }

  /** A flow is served: greeted and written to if the socket is writable, read if it is readable; then
      come the calls that its callbacks make on other flows. */
  ghost function Served(fs: seq<Flow>, i: nat, readable: bool, writable: bool, x: Script): (r: seq<Flow>)
    requires SoundFlows(fs) && i < |fs|
    ensures SoundFlows(r) && |r| == |fs|
  {
    var a := if writable then Written(Greeted(fs, i, x), i, x) else fs;
    var b := if readable then CalledAll(a, i, x.inReadable) else a;
    CalledOthers(b, x.others)
  }

  ghost function ServedFrom(fs: seq<Flow>, i: nat, readable: bool, writable: bool, xs: seq<Script>): (r: seq<Flow>)
    requires SoundFlows(fs)
    ensures SoundFlows(r) && |r| == |fs|
    decreases |xs|
  {
    if i >= |fs| || xs == [] then fs
    else
      var r := Served(fs, i, readable, writable, xs[0]);
      if readable && xs[0].stop then r else ServedFrom(r, i + 1, readable, writable, xs[1..])
  }

  // ---------------------------------------------------------------- registration changes no flow

  lemma SameCalled(s: Socket, fs: seq<Flow>, i: nat, c: Call)
    requires Sound(s) && SoundFlows(fs) && SameFlows(s.flows, fs)
    ensures SameFlows(DoCall(s, i, c).flows, Called(fs, i, c))
  {
    if i < |fs| {
      assert Bare(s.flows[i]) == Bare(fs[i]);
      UpdateSame(s.(flows := s.flows[i := OnFlow(s.flows[i], c)]));
    }
  }

  lemma {:induction false} SameCalledAll(s: Socket, fs: seq<Flow>, i: nat, cs: seq<Call>)
    requires Sound(s) && SoundFlows(fs) && SameFlows(s.flows, fs)
    ensures SameFlows(Calls(s, i, cs).flows, CalledAll(fs, i, cs))
    decreases |cs|
  {
    if cs != [] {
      CallSound(s, i, cs[0]);
      SameCalled(s, fs, i, cs[0]);
      SameCalledAll(DoCall(s, i, cs[0]), Called(fs, i, cs[0]), i, cs[1..]);
    }
  }

  lemma {:induction false} SameCalledOthers(s: Socket, fs: seq<Flow>, cs: seq<(nat, Call)>)
    requires Sound(s) && SoundFlows(fs) && SameFlows(s.flows, fs)
    ensures SameFlows(Others(s, cs).flows, CalledOthers(fs, cs))
    decreases |cs|
  {
    if cs != [] {
      CallSound(s, cs[0].0, cs[0].1);
      SameCalled(s, fs, cs[0].0, cs[0].1);
      SameCalledOthers(DoCall(s, cs[0].0, cs[0].1), Called(fs, cs[0].0, cs[0].1), cs[1..]);
    }
  }

  lemma SameAfterUpdate(a: seq<Flow>, b: seq<Flow>, i: nat, f: Flow, g: Flow)
    requires SameFlows(a, b) && i < |a| && Bare(f) == Bare(g)
    ensures SameFlows(a[i := f], b[i := g])
  {
  }

  lemma SameGreeted(s: Socket, fs: seq<Flow>, i: nat, x: Script)
    requires Sound(s) && SoundFlows(fs) && SameFlows(s.flows, fs) && i < |fs| && fs[i].firstWritePending
    ensures var first := s.(flows := s.flows[i := s.flows[i].(firstWritePending := false)]);
            Sound(first) && SameFlows(Calls(first, i, x.connected).flows, Greeted(fs, i, x))
  {
    var first := s.(flows := s.flows[i := s.flows[i].(firstWritePending := false)]);
    var gs := fs[i := fs[i].(firstWritePending := false)];
    assert Bare(s.flows[i]) == Bare(fs[i]);
    SameAfterUpdate(s.flows, fs, i, first.flows[i], gs[i]);
    SameCalledAll(first, gs, i, x.connected);
  }

  lemma SameWritten(s: Socket, fs: seq<Flow>, i: nat, x: Script)
    requires Sound(s) && SoundFlows(fs) && SameFlows(s.flows, fs) && i < |fs|
    ensures SameFlows(ServeWritable(s, i, x).flows, Written(Greeted(fs, i, x), i, x))
  {
    var f := s.flows[i];
    assert Bare(f) == Bare(fs[i]);
    var first := s.(flows := s.flows[i := f.(firstWritePending := false)]);
    if f.firstWritePending {
      SameGreeted(s, fs, i, x);
      CallsSound(first, i, x.connected);
    }
    var s1 := if f.firstWritePending then Calls(first, i, x.connected) else s;
    var gs := Greeted(fs, i, x);
    assert SameFlows(s1.flows, gs) && Bare(s1.flows[i]) == Bare(gs[i]);
    SameAfterUpdate(s1.flows, gs, i, ServeWritable(s, i, x).flows[i], Written(gs, i, x)[i]);
  }

  lemma SameServed(s: Socket, fs: seq<Flow>, i: nat, readable: bool, writable: bool, x: Script)
    requires Sound(s) && SoundFlows(fs) && SameFlows(s.flows, fs) && i < |fs|
    ensures SameFlows(Serve(s, i, readable, writable, x).flows, Served(fs, i, readable, writable, x))
  {
    var s1 := if writable then ServeWritable(s, i, x) else s;
    var a := if writable then Written(Greeted(fs, i, x), i, x) else fs;
    if writable {
      SameWritten(s, fs, i, x);
    }
    var s2 := if readable then ServeReadable(s1, i, x) else s1;
    var b := if readable then CalledAll(a, i, x.inReadable) else a;
    if readable {
      SameCalledAll(s1.(received := s1.received || x.received), a, i, x.inReadable);
    }
    SameCalledOthers(s2, b, x.others);
  }

  lemma UnfoldServe(s: Socket, i: nat, readable: bool, writable: bool, xs: seq<Script>)
    requires Sound(s)
    ensures ServeFrom(s, i, readable, writable, xs) ==
            if i >= |s.flows| || xs == [] then s
            else
              var r := Serve(s, i, readable, writable, xs[0]);
              if readable && xs[0].stop then r else ServeFrom(r, i + 1, readable, writable, xs[1..])
  {
  }

  lemma UnfoldServed(fs: seq<Flow>, i: nat, readable: bool, writable: bool, xs: seq<Script>)
    requires SoundFlows(fs)
    ensures ServedFrom(fs, i, readable, writable, xs) ==
            if i >= |fs| || xs == [] then fs
            else
              var r := Served(fs, i, readable, writable, xs[0]);
              if readable && xs[0].stop then r else ServedFrom(r, i + 1, readable, writable, xs[1..])
  {
  }

  lemma {:induction false} SameServedFrom(
      s: Socket, fs: seq<Flow>, i: nat, readable: bool, writable: bool, xs: seq<Script>)
    requires Sound(s) && SoundFlows(fs) && SameFlows(s.flows, fs)
    ensures SameFlows(ServeFrom(s, i, readable, writable, xs).flows, ServedFrom(fs, i, readable, writable, xs))
    decreases |xs|
  {
    if i >= |fs| || xs == [] {
      ServeNone(s, fs, i, readable, writable, xs);
    } else {
      var t, gs := Serve(s, i, readable, writable, xs[0]), Served(fs, i, readable, writable, xs[0]);
      SameServed(s, fs, i, readable, writable, xs[0]);
      if !(readable && xs[0].stop) {
        SameServedFrom(t, gs, i + 1, readable, writable, xs[1..]);
      }
      SameNext(s, fs, i, readable, writable, xs, t, gs);
    }
  }

  lemma ServeNone(s: Socket, fs: seq<Flow>, i: nat, readable: bool, writable: bool, xs: seq<Script>)
    requires Sound(s) && SoundFlows(fs) && SameFlows(s.flows, fs) && (i >= |fs| || xs == [])
    ensures SameFlows(ServeFrom(s, i, readable, writable, xs).flows, ServedFrom(fs, i, readable, writable, xs))
  {
  }

  lemma SameNext(
      s: Socket, fs: seq<Flow>, i: nat, readable: bool, writable: bool, xs: seq<Script>, t: Socket, gs: seq<Flow>)
    requires Sound(s) && SoundFlows(fs) && |s.flows| == |fs| && i < |fs| && xs != [] && Sound(t) && SoundFlows(gs)
    requires t == Serve(s, i, readable, writable, xs[0]) && gs == Served(fs, i, readable, writable, xs[0])
    requires SameFlows(t.flows, gs)
    requires !(readable && xs[0].stop) ==>
               SameFlows(ServeFrom(t, i + 1, readable, writable, xs[1..]).flows,
                         ServedFrom(gs, i + 1, readable, writable, xs[1..]))
    ensures SameFlows(ServeFrom(s, i, readable, writable, xs).flows, ServedFrom(fs, i, readable, writable, xs))
  {
    UnfoldServe(s, i, readable, writable, xs);
    UnfoldServed(fs, i, readable, writable, xs);
  }

  /** A socket that does not wait serves its flows one after the other, each with its own writable event
      and the calls of its callbacks, up to a read that fails; what is registered changes none of it. */
  lemma PollServes(s: Socket, readable: bool, writable: bool, xs: seq<Script>, gotData: bool, gotEvent: bool)
    requires Sound(s) && !s.wait && s.flows != []
    ensures SameFlows(Step(s, Poll(readable, writable, xs, gotData, gotEvent)).flows,
                      ServedFrom(s.flows, 0, readable, writable, xs))
  {
    SameServedFrom(s, s.flows, 0, readable, writable, xs);
    UpdateSame(ServeFrom(s, 0, readable, writable, xs));
  }

  /** A flow that joins stands in front and is served as on a writable socket; a flow that leaves is
      gone, and the handle closes with the last one. */
  lemma JoinAndLeave(s: Socket, sock: W.Socket, ops: Call, xs: seq<Script>, i: nat)
    requires Sound(s) && SoundFlows([NewFlow(sock, ops)] + s.flows)
    ensures !s.wait ==>
              SameFlows(Step(s, Join(sock, ops, xs)).flows,
                        ServedFrom([NewFlow(sock, ops)] + s.flows, 0, false, true, xs))
    ensures i < |s.flows| ==>
              var t := Step(s, Leave(i));
              && t.flows == s.flows[..i] + s.flows[i + 1..]
              && (t.closing <==> s.closing || t.flows == []) && t.readable == s.readable && t.writable == s.writable
  {
    var t := s.(flows := [NewFlow(sock, ops)] + s.flows);
    NewFlowSound(s, sock, ops);
    if !s.wait {
      SameServedFrom(t, t.flows, 0, false, true, xs);
      UpdateSame(ServeFrom(t, 0, false, true, xs));
    }
  }

  // ---------------------------------------------------------------- notifications

  lemma {:induction false} CallsKeepFlags(s: Socket, i: nat, cs: seq<Call>)
    ensures Calls(s, i, cs).received == s.received && Calls(s, i, cs).wait == s.wait
    decreases |cs|
  {
    if cs != [] {
      CallsKeepFlags(DoCall(s, i, cs[0]), i, cs[1..]);
    }
  }

  lemma {:induction false} OthersKeepFlags(s: Socket, cs: seq<(nat, Call)>)
    ensures Others(s, cs).received == s.received && Others(s, cs).wait == s.wait
    decreases |cs|
  {
    if cs != [] {
      OthersKeepFlags(DoCall(s, cs[0].0, cs[0].1), cs[1..]);
    }
  }

  lemma ServeHears(s: Socket, i: nat, readable: bool, writable: bool, x: Script)
    requires Sound(s) && i < |s.flows|
    ensures var t := Serve(s, i, readable, writable, x);
            (t.received <==> s.received || (readable && x.received)) && t.wait == s.wait
  {
    CallsKeepFlags(s.(flows := s.flows[i := s.flows[i].(firstWritePending := false)]), i, x.connected);
    var s1 := if writable then ServeWritable(s, i, x) else s;
    CallsKeepFlags(s1.(received := s1.received || x.received), i, x.inReadable);
    var s2 := if readable then ServeReadable(s1, i, x) else s1;
    OthersKeepFlags(s2, x.others);
  }

  /** Reading one of the flows that are served brings a notification. */
  predicate Heard(n: nat, i: nat, xs: seq<Script>)
    decreases |xs|
  {
    i < n && xs != [] && (xs[0].received || (!xs[0].stop && Heard(n, i + 1, xs[1..])))
  }

  lemma {:induction false} ServeFromHears(s: Socket, i: nat, readable: bool, writable: bool, xs: seq<Script>)
    requires Sound(s)
    ensures var t := ServeFrom(s, i, readable, writable, xs);
            (t.received <==> s.received || (readable && Heard(|s.flows|, i, xs))) && t.wait == s.wait
    decreases |xs|
  {
    UnfoldServe(s, i, readable, writable, xs);
    if i < |s.flows| && xs != [] {
      ServeHears(s, i, readable, writable, xs[0]);
      if !(readable && xs[0].stop) {
        ServeFromHears(Serve(s, i, readable, writable, xs[0]), i + 1, readable, writable, xs[1..]);
      }
    }
  }

  /** A poll step remembers a notification exactly if it read one. */
  lemma NotificationSeen(s: Socket, readable: bool, writable: bool, xs: seq<Script>, gotData: bool, gotEvent: bool)
    requires Sound(s) && !s.wait && s.flows != []
    ensures var t := Step(s, Poll(readable, writable, xs, gotData, gotEvent));
            (t.received <==> s.received || (readable && Heard(|s.flows|, 0, xs))) && !t.wait
  {
    ServeFromHears(s, 0, readable, writable, xs);
    UpdateSame(ServeFrom(s, 0, readable, writable, xs));
  }
}
