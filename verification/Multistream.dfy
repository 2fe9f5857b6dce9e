/**
 SCTP multistreaming: several flows share one association and one use count. Flows join when the
 peer turns out to be NEAT enabled, by piggybacking or by an incoming stream; they leave when
 both directions of their stream were reset or when the application closes them.
 */
module Multistream {
  import opened Types

  /** `open` is NEAT_FLOW_OPEN; a flow that is listed but not connected yet is still CLOSED. */
  datatype Flow = Flow(id: nat, sid: nat, open: bool, resetIn: bool, resetOut: bool)

  /** `used` is sctp_streams_used. The rest is history: who decremented it, who left the list, which
      other flows were listed whenever the socket was closed, and how many flows had both directions
      reset before they were connected. `fault` is set when a handler follows a null pointer. */
  datatype State = State(
    enabled: bool,
    used: int,
    flows: seq<Flow>,
    decrements: seq<nat>,
    gone: seq<nat>,
    closings: seq<seq<Flow>>,
    early: nat,
    fault: bool)

  /** `again` is how often the application closes the flow once more inside on_close. A flow that
      piggybacks is connected before nt_he_open returns; the first flow may still wait for its first
      writable event when the association turns out to be shared. */
  datatype Event =
    | Enable(id: nat, open: bool)
    | Piggyback(id: nat)
    | Incoming(id: nat, sid: nat)
    | Connected(id: nat)
    | Reset(sid: nat, incoming: bool, again: nat)
    | Close(id: nat, again: nat)

  function Fresh(): State { State(false, 0, [], [], [], [], 0, false) }

  // ---------------------------------------------------------------- the list

  /** Flows are looked up by object or by stream number. */
  datatype Key = Id(id: nat) | Sid(sid: nat)
  {
    predicate Names(f: Flow) { match this case Id(id) => f.id == id case Sid(sid) => f.sid == sid }
  }

  /** The first flow with the key. */
  function IndexOf(flows: seq<Flow>, key: Key): (r: Option<nat>)
    ensures r.Some? ==> r.value < |flows| && key.Names(flows[r.value])
    ensures r.Some? ==> forall i :: 0 <= i < r.value ==> !key.Names(flows[i])
    ensures r.None? ==> forall i :: 0 <= i < |flows| ==> !key.Names(flows[i])
  {
    if flows == [] then None
    else if key.Names(flows[0]) then Some(0)
    else
      var r := IndexOf(flows[1..], key);
      if r.Some? then Some(r.value + 1) else None
  }

  function Remove(flows: seq<Flow>, i: nat): (r: seq<Flow>)
    requires i < |flows|
    ensures |r| == |flows| - 1
  {
    flows[..i] + flows[i + 1..]
  }

  // ---------------------------------------------------------------- steps

  function Insert(s: State, f: Flow): State {
    s.(used := s.used + 1, flows := [f] + s.flows)
  }

  function Decrement(s: State, id: nat): State {
    s.(used := s.used - 1, decrements := s.decrements + [id])
  }

  /** The part of neat_close that may close the socket. */
  function MaybeCloseSocket(s: State, i: nat): State
    requires i < |s.flows|
  {
    if s.used == 0 then s.(closings := s.closings + [Remove(s.flows, i)]) else s
  }

  /** The application calls neat_close again from on_close: the flow is CLOSED by now. */
  function CloseAgain(s: State, i: nat, again: nat): (r: State)
    requires i < |s.flows|
    ensures r == s.(closings := r.closings)
    decreases again
  {
    if again == 0 then s else CloseAgain(MaybeCloseSocket(s, i), i, again - 1)
  }

  /** nt_notify_close and nt_free_flow; a flow that is not open is left alone. */
  function NotifyClose(s: State, i: nat, again: nat): State
    requires i < |s.flows|
  {
    if !s.flows[i].open then s
    else
      var f := s.flows[i];
      var s1 := CloseAgain(s.(flows := s.flows[i := f.(open := false)]), i, again);
      s1.(flows := Remove(s1.flows, i), gone := s1.gone + [f.id])
  }

  /** With both directions reset the flow is counted down and closed. */
  function Resettled(s: State, i: nat, again: nat): State
    requires i < |s.flows|
  {
    var f := s.flows[i];
    if f.resetIn && f.resetOut then
      var t := Decrement(s, f.id);
      NotifyClose(if f.open then t else t.(early := t.early + 1), i, again)
    else s
  }

  /** One direction of the stream was reset; the second one closes the flow. */
  function HandleReset(s: State, i: nat, incoming: bool, again: nat): State
    requires i < |s.flows|
  {
    var f := s.flows[i];
    Resettled(s.(flows := s.flows[i := if incoming then f.(resetIn := true) else f.(resetOut := true)]), i, again)
  }

  /** neat_close. */
  function HandleClose(s: State, i: nat, again: nat): State
    requires i < |s.flows|
  {
    var s1 := if s.flows[i].open then Decrement(s, s.flows[i].id) else s;
    NotifyClose(MaybeCloseSocket(s1, i), i, again)
  }

  /** Every id names one flow object: it is new when it joins. */
  predicate Unknown(s: State, id: nat) {
    IndexOf(s.flows, Id(id)).None? && id !in s.gone
  }

  /** Events that the source does not allow in a state (asserted there) do nothing. */
  function Step(s: State, e: Event): State {
    match e
    case Enable(id, open) =>
      if !s.enabled && s.flows == [] && Unknown(s, id)
      then s.(enabled := true, used := 1, flows := [Flow(id, 0, open, false, false)]) else s
    case Piggyback(id) =>
      if s.enabled && Unknown(s, id)
      then Insert(s, Flow(id, if s.used >= 0 then s.used + 1 else 0, true, false, false)) else s
    case Incoming(id, sid) =>
      if s.enabled && Unknown(s, id) && IndexOf(s.flows, Sid(sid)).None?
      then Insert(s, Flow(id, sid, true, false, false)) else s
    case Connected(id) =>
      var i := IndexOf(s.flows, Id(id));
      if i.Some? then s.(flows := s.flows[i.value := s.flows[i.value].(open := true)]) else s
    case Reset(sid, incoming, again) =>
      var i := IndexOf(s.flows, Sid(sid));
      if i.None? then s.(fault := true)
      else if !(if incoming then s.flows[i.value].resetIn else s.flows[i.value].resetOut)
      then HandleReset(s, i.value, incoming, again) else s
    case Close(id, again) =>
      var i := IndexOf(s.flows, Id(id));
      if i.Some? then HandleClose(s, i.value, again) else s
  }

  function Run(events: seq<Event>): State {
    if events == [] then Fresh()
    else Step(Run(events[..|events| - 1]), events[|events| - 1])
  }

  // ---------------------------------------------------------------- what every run keeps

  ghost predicate Distinct(xs: seq<nat>) {
    forall i, j :: 0 <= i < j < |xs| ==> xs[i] != xs[j]
  }

  /** The count is the length of the list, less the flows that were reset too early. */
  ghost predicate Counted(s: State) {
    s.used + s.early == |s.flows| && (!s.enabled ==> s == Fresh().(fault := s.fault))
  }

  /** Without early resets: who left is who decremented, each once; listed flows are not fully
      reset; the socket was closed only with no other flow listed. */
  ghost predicate Orderly(s: State) {
    && s.decrements == s.gone
    && Distinct(s.gone)
    && (forall i :: 0 <= i < |s.gone| ==> NotIn(s.flows, s.gone[i]))
    && UniqueIds(s.flows)
    && HalfOpen(s.flows)
    && AloneClosings(s.closings)
  }

  ghost predicate Inv(s: State) {
    Counted(s) && (s.early == 0 ==> Orderly(s))
  }

  ghost predicate AloneClosings(c: seq<seq<Flow>>) {
    forall i :: 0 <= i < |c| ==> c[i] == []
  }

  /** A socket closed at count zero had no other flow, as long as the count is honest. */
  lemma {:induction false} CloseAgainAlone(s: State, i: nat, again: nat)
    requires i < |s.flows| && (s.used == 0 ==> |s.flows| == 1) && AloneClosings(s.closings)
    ensures AloneClosings(MaybeCloseSocket(s, i).closings)
    ensures AloneClosings(CloseAgain(s, i, again).closings)
    decreases again
  {
    if again > 0 {
      CloseAgainAlone(MaybeCloseSocket(s, i), i, again - 1);
    }
  }

  ghost predicate UniqueIds(flows: seq<Flow>) {
    forall i, j :: 0 <= i < j < |flows| ==> flows[i].id != flows[j].id
  }

  ghost predicate NotIn(flows: seq<Flow>, id: nat) {
    forall i :: 0 <= i < |flows| ==> flows[i].id != id
  }

  ghost predicate HalfOpen(flows: seq<Flow>) {
    forall i :: 0 <= i < |flows| ==> !(flows[i].resetIn && flows[i].resetOut)
  }

  lemma RemoveFlow(flows: seq<Flow>, i: nat)
    requires i < |flows| && UniqueIds(flows)
    ensures UniqueIds(Remove(flows, i)) && NotIn(Remove(flows, i), flows[i].id)
    ensures forall id :: NotIn(flows, id) ==> NotIn(Remove(flows, i), id)
    ensures (forall k :: 0 <= k < |flows| && k != i ==> !(flows[k].resetIn && flows[k].resetOut)) ==>
            HalfOpen(Remove(flows, i))
  {
    var r := Remove(flows, i);
    forall k | 0 <= k < |r| ensures r[k] == flows[if k < i then k else k + 1] {
    }
  }

  /** An open flow leaves: the decrement is its own and the list forgets it. */
  lemma LeaveKeeps(s: State, i: nat, again: nat)
    requires i < |s.flows| && s.flows[i].open
    requires s.used + s.early == |s.flows| - 1 && s.enabled
    requires s.early == 0 ==>
      && s.decrements == s.gone + [s.flows[i].id] && Distinct(s.gone) && UniqueIds(s.flows)
      && (forall k :: 0 <= k < |s.gone| ==> NotIn(s.flows, s.gone[k]))
      && (forall k :: 0 <= k < |s.flows| && k != i ==> !(s.flows[k].resetIn && s.flows[k].resetOut))
      && AloneClosings(s.closings)
    ensures Inv(NotifyClose(s, i, again))
  {
    var f := s.flows[i];
    var flows := s.flows[i := f.(open := false)];
    var s1 := s.(flows := flows);
    if s.early == 0 {
      CloseAgainAlone(s1, i, again);
      assert UniqueIds(flows) && forall id :: NotIn(s.flows, id) ==> NotIn(flows, id);
      RemoveFlow(flows, i);
    }
  }

  lemma ResetKeeps(s: State, i: nat, incoming: bool, again: nat)
    requires Inv(s) && i < |s.flows|
    ensures Inv(HandleReset(s, i, incoming, again))
  {
    var f := s.flows[i];
    var f' := if incoming then f.(resetIn := true) else f.(resetOut := true);
    var s1 := s.(flows := s.flows[i := f']);
    assert forall id :: NotIn(s.flows, id) ==> NotIn(s1.flows, id);
    if f'.resetIn && f'.resetOut && f.open {
      LeaveKeeps(Decrement(s1, f.id), i, again);
    }
  }

  lemma CloseKeeps(s: State, i: nat, again: nat)
    requires Inv(s) && i < |s.flows|
    ensures Inv(HandleClose(s, i, again))
  {
    if s.flows[i].open {
      var s1 := Decrement(s, s.flows[i].id);
      if s.early == 0 {
        CloseAgainAlone(s1, i, 0);
      }
      LeaveKeeps(MaybeCloseSocket(s1, i), i, again);
    }
  }

  lemma InsertKeeps(s: State, f: Flow)
    requires Inv(s) && s.enabled && Unknown(s, f.id) && !f.resetIn && !f.resetOut
    ensures Inv(Insert(s, f))
  {
    if s.early == 0 {
      var flows := [f] + s.flows;
      assert NotIn(s.flows, f.id);
      forall k | 0 <= k < |s.gone| ensures NotIn(flows, s.gone[k]) {
        assert NotIn(s.flows, s.gone[k]) && s.gone[k] != f.id;
      }
    }
  }

  lemma ConnectedKeeps(s: State, i: nat)
    requires Inv(s) && i < |s.flows|
    ensures Inv(s.(flows := s.flows[i := s.flows[i].(open := true)]))
  {
    var flows := s.flows[i := s.flows[i].(open := true)];
    assert forall id :: NotIn(s.flows, id) ==> NotIn(flows, id);
  }

  lemma Enabled(f: Flow, fault: bool)
    requires !f.resetIn
    ensures Inv(State(true, 1, [f], [], [], [], 0, fault))
  {
  }

  lemma EnableKeeps(s: State, f: Flow)
    requires Inv(s) && !s.enabled && !f.resetIn
    ensures Inv(s.(enabled := true, used := 1, flows := [f]))
  {
    Enabled(f, s.fault);
    assert s == State(false, 0, [], [], [], [], 0, s.fault);
  }

  lemma FaultKeeps(s: State)
    requires Inv(s)
    ensures Inv(s.(fault := true))
  {
  }

  lemma EnableEventKeeps(s: State, id: nat, open: bool)
    requires Inv(s)
    ensures Inv(Step(s, Enable(id, open)))
  {
    var f := Flow(id, 0, open, false, false);
    if !s.enabled && s.flows == [] && Unknown(s, id) {
      EnableKeeps(s, f);
      assert Step(s, Enable(id, open)) == s.(enabled := true, used := 1, flows := [f]);
    } else {
      assert Step(s, Enable(id, open)) == s;
    }
  }

  lemma PiggybackKeeps(s: State, id: nat)
    requires Inv(s)
    ensures Inv(Step(s, Piggyback(id)))
  {
    var f := Flow(id, if s.used >= 0 then s.used + 1 else 0, true, false, false);
    if s.enabled && Unknown(s, id) {
      InsertKeeps(s, f);
      assert Step(s, Piggyback(id)) == Insert(s, f);
    } else {
      assert Step(s, Piggyback(id)) == s;
    }
  }

  lemma IncomingKeeps(s: State, id: nat, sid: nat)
    requires Inv(s)
    ensures Inv(Step(s, Incoming(id, sid)))
  {
    var f := Flow(id, sid, true, false, false);
    if s.enabled && Unknown(s, id) && IndexOf(s.flows, Sid(sid)).None? {
      InsertKeeps(s, f);
      assert Step(s, Incoming(id, sid)) == Insert(s, f);
    } else {
      assert Step(s, Incoming(id, sid)) == s;
    }
  }

  lemma ResetEventKeeps(s: State, sid: nat, incoming: bool, again: nat)
    requires Inv(s)
    ensures Inv(Step(s, Reset(sid, incoming, again)))
  {
    var i := IndexOf(s.flows, Sid(sid));
    if i.None? {
      FaultKeeps(s);
    } else {
      ResetKeeps(s, i.value, incoming, again);
    }
  }

  lemma StepKeeps(s: State, e: Event)
    requires Inv(s)
    ensures Inv(Step(s, e))
  {
    match e
    case Enable(id, open) => EnableEventKeeps(s, id, open);
    case Piggyback(id) => PiggybackKeeps(s, id);
    case Incoming(id, sid) => IncomingKeeps(s, id, sid);
    case Connected(id) =>
      var i := IndexOf(s.flows, Id(id));
      if i.Some? { ConnectedKeeps(s, i.value); }
    case Reset(sid, incoming, again) => ResetEventKeeps(s, sid, incoming, again);
    case Close(id, again) =>
      var i := IndexOf(s.flows, Id(id));
      if i.Some? { CloseKeeps(s, i.value, again); }
  }

  lemma {:induction false} RunKeeps(events: seq<Event>)
    ensures Inv(Run(events))
    decreases |events|
  {
    if events != [] {
      RunKeeps(events[..|events| - 1]);
      StepKeeps(Run(events[..|events| - 1]), events[|events| - 1]);
    }
  }

  // ---------------------------------------------------------------- theorems

  /** The event resets the second direction of a stream whose flow is not connected. */
  predicate Premature(s: State, e: Event) {
    e.Reset? &&
    var i := IndexOf(s.flows, Sid(e.sid));
    i.Some? && var f := s.flows[i.value];
    !f.open && (if e.incoming then !f.resetIn && f.resetOut else f.resetIn && !f.resetOut)
  }

  /** No event of the run is premature when it comes. */
  ghost predicate Timely(events: seq<Event>)
    decreases |events|
  {
    events == [] ||
    var rest := events[..|events| - 1];
    Timely(rest) && !Premature(Run(rest), events[|events| - 1])
  }

  /** One step changes the difference between the count and the list exactly when it is premature. */
  lemma PrematureIff(s: State, e: Event)
    requires Inv(s)
    ensures Step(s, e).early == s.early + if Premature(s, e) then 1 else 0
    ensures Step(s, e).used - |Step(s, e).flows| != s.used - |s.flows| <==> Premature(s, e)
  {
    StepEarly(s, e);
    StepKeeps(s, e);
  }

  lemma NotifyEarly(s: State, i: nat, again: nat)
    requires i < |s.flows|
    ensures NotifyClose(s, i, again).early == s.early
  {
  }

  lemma ResetEarly(s: State, i: nat, incoming: bool, again: nat)
    requires i < |s.flows|
    ensures var f := s.flows[i];
            HandleReset(s, i, incoming, again).early ==
              s.early + if !f.open && (incoming || f.resetIn) && (!incoming || f.resetOut) then 1 else 0
  {
    var f := s.flows[i];
    var f' := if incoming then f.(resetIn := true) else f.(resetOut := true);
    var t := Decrement(s.(flows := s.flows[i := f']), f.id);
    NotifyEarly(t, i, again);
    NotifyEarly(t.(early := t.early + 1), i, again);
  }

  lemma StepEarly(s: State, e: Event)
    ensures Step(s, e).early == s.early + if Premature(s, e) then 1 else 0
  {
    if e.Reset? {
      var i := IndexOf(s.flows, Sid(e.sid));
      if i.Some? { ResetEarly(s, i.value, e.incoming, e.again); }
    } else if e.Close? {
      var i := IndexOf(s.flows, Id(e.id));
      if i.Some? {
        var f := s.flows[i.value];
        var s1 := if f.open then Decrement(s, f.id) else s;
        NotifyEarly(MaybeCloseSocket(s1, i.value), i.value, e.again);
      }
    }
  }

  lemma {:induction false} TimelyIs(events: seq<Event>)
    ensures Timely(events) <==> Run(events).early == 0
    decreases |events|
  {
    if events != [] {
      var rest := events[..|events| - 1];
      TimelyIs(rest);
      RunKeeps(rest);
      PrematureIff(Run(rest), events[|events| - 1]);
    }
  }

  /** In every run the use count is the number of listed flows if and only if no flow had both
      directions of its stream reset before it was connected. */
  lemma CountIff(events: seq<Event>)
    ensures Run(events).used == |Run(events).flows| <==> Timely(events)
  {
    RunKeeps(events);
    TimelyIs(events);
  }

  /** Without such resets every flow that left decremented the count exactly once, no listed flow
      did or has both directions reset, and the socket was closed only when no other flow was left,
      however often the application closes a flow again inside on_close. */
  lemma LeavingOnce(events: seq<Event>)
    requires Timely(events)
    ensures var s := Run(events);
            && s.decrements == s.gone && Distinct(s.gone)
            && (forall i, k :: 0 <= i < |s.flows| && 0 <= k < |s.decrements| ==> s.flows[i].id != s.decrements[k])
            && (forall i :: 0 <= i < |s.flows| ==> !(s.flows[i].resetIn && s.flows[i].resetOut))
            && (forall i :: 0 <= i < |s.closings| ==> s.closings[i] == [])
  {
    RunKeeps(events);
    TimelyIs(events);
    var s := Run(events);
    forall i, k | 0 <= i < |s.flows| && 0 <= k < |s.decrements| ensures s.flows[i].id != s.decrements[k] {
      assert NotIn(s.flows, s.gone[k]);
    }
  }

  /** The reset of the second direction, whichever it is, closes an open flow; the first does not. */
  lemma ResetClosesIff(s: State, i: nat, incoming: bool, again: nat)
    requires i < |s.flows| && s.flows[i].open
    requires !(if incoming then s.flows[i].resetIn else s.flows[i].resetOut)
    ensures var s' := HandleReset(s, i, incoming, again);
            var other := if incoming then s.flows[i].resetOut else s.flows[i].resetIn;
            && (other ==> s'.flows == Remove(s.flows, i) && s'.used == s.used - 1)
            && (other ==> s'.gone == s.gone + [s.flows[i].id])
            && (!other ==> |s'.flows| == |s.flows| && s'.used == s.used && s'.gone == s.gone)
  {
    var f := s.flows[i];
    var f' := if incoming then f.(resetIn := true) else f.(resetOut := true);
    assert s.flows[i := f'][i := f'.(open := false)] == s.flows[i := f'.(open := false)];
    assert Remove(s.flows[i := f'.(open := false)], i) == Remove(s.flows, i);
  }

  /** Closing an open flow closes the socket exactly when it is the last one. */
  lemma LastCloseShutsSocket(s: State, i: nat)
    requires Inv(s) && s.early == 0 && i < |s.flows| && s.flows[i].open
    ensures |HandleClose(s, i, 0).closings| == |s.closings| + if |s.flows| == 1 then 1 else 0
  {
  }

  /** An association with its first flow alone. */
  function Lone(used: int, open: bool, resetIn: bool, resetOut: bool, decrements: seq<nat>, early: nat): State {
    State(true, used, [Flow(0, 0, open, resetIn, resetOut)], decrements, [], [], early, false)
  }

  lemma LoneEnabled()
    ensures Step(Fresh(), Enable(0, false)) == Lone(1, false, false, false, [], 0)
  {
  }

  lemma LoneReset()
    ensures Step(Lone(1, false, false, false, [], 0), Reset(0, true, 0)) == Lone(1, false, true, false, [], 0)
  {
    assert IndexOf(Lone(1, false, false, false, [], 0).flows, Sid(0)) == Some(0);
  }

  lemma LoneResetEarly()
    ensures Step(Lone(1, false, true, false, [], 0), Reset(0, false, 0)) == Lone(0, false, true, true, [0], 1)
  {
    assert IndexOf(Lone(1, false, true, false, [], 0).flows, Sid(0)) == Some(0);
  }

  lemma LoneConnected()
    ensures Step(Lone(0, false, true, true, [0], 1), Connected(0)) == Lone(0, true, true, true, [0], 1)
  {
    assert IndexOf(Lone(0, false, true, true, [0], 1).flows, Id(0)) == Some(0);
  }

  lemma LoneClosed()
    ensures var s := Step(Lone(0, true, true, true, [0], 1), Close(0, 0));
            s.decrements == [0, 0] && s.used == -1 && s.flows == [] && s.closings == [] && !s.fault
  {
    assert IndexOf(Lone(0, true, true, true, [0], 1).flows, Id(0)) == Some(0);
  }

  /** The first flow of an association is reset in both directions before its first writable event,
      connects and is closed: it has decremented the count twice, and the socket is not closed. */
  lemma EarlyResetExample()
    ensures var s := Run([Enable(0, false), Reset(0, true, 0), Reset(0, false, 0), Connected(0), Close(0, 0)]);
            s.decrements == [0, 0] && s.used == -1 && s.flows == [] && s.closings == [] && !s.fault
  {
    LoneEnabled();
    LoneReset();
    LoneResetEarly();
    LoneConnected();
    LoneClosed();
    RunFive(Enable(0, false), Reset(0, true, 0), Reset(0, false, 0), Connected(0), Close(0, 0));
  }

  lemma RunFour(a: Event, b: Event, c: Event, d: Event)
    ensures Run([a, b, c, d]) == Step(Step(Step(Step(Fresh(), a), b), c), d)
  {
    RunStep([], a);
    RunStep([a], b);
    RunStep([a, b], c);
    RunStep([a, b, c], d);
    assert [] + [a] == [a] && [a] + [b] == [a, b] && [a, b] + [c] == [a, b, c];
    assert [a, b, c] + [d] == [a, b, c, d];
  }

  lemma RunFive(a: Event, b: Event, c: Event, d: Event, e: Event)
    ensures Run([a, b, c, d, e]) == Step(Step(Step(Step(Step(Fresh(), a), b), c), d), e)
  {
    RunFour(a, b, c, d);
    RunStep([a, b, c, d], e);
    assert [a, b, c, d] + [e] == [a, b, c, d, e];
  }

  /** The event resets a stream that no listed flow has: the handler looks into the flow before it
      asks whether there is one. */
  predicate Stray(s: State, e: Event) { e.Reset? && IndexOf(s.flows, Sid(e.sid)).None? }

  ghost predicate AnyStray(events: seq<Event>)
    decreases |events|
  {
    events != [] &&
    var rest := events[..|events| - 1];
    AnyStray(rest) || Stray(Run(rest), events[|events| - 1])
  }

  lemma StrayFaults(s: State, e: Event)
    ensures Step(s, e).fault <==> s.fault || Stray(s, e)
  {
  }

  /** A run follows a null pointer if and only if it resets a stream that no listed flow has. */
  lemma {:induction false} FaultIff(events: seq<Event>)
    ensures Run(events).fault <==> AnyStray(events)
    decreases |events|
  {
    if events != [] {
      var rest := events[..|events| - 1];
      FaultIff(rest);
      StrayFaults(Run(rest), events[|events| - 1]);
    }
  }

  /** A flow that the application has closed is reset by the peer afterwards. */
  lemma LateResetExample()
    ensures Run([Enable(0, true), Incoming(1, 5), Close(1, 0), Reset(5, true, 0)]).fault
  {
    var e1, e2 := [Enable(0, true)], [Enable(0, true), Incoming(1, 5)];
    var e3 := [Enable(0, true), Incoming(1, 5), Close(1, 0)];
    RunStep([], Enable(0, true));
    assert [] + [Enable(0, true)] == e1;
    RunStep(e1, Incoming(1, 5));
    assert e1 + [Incoming(1, 5)] == e2;
    var f := Flow(0, 0, true, false, false);
    assert Run(e2) == State(true, 2, [Flow(1, 5, true, false, false), f], [], [], [], 0, false);
    RunStep(e2, Close(1, 0));
    assert e2 + [Close(1, 0)] == e3;
    assert Run(e3).flows == [f];
    RunStep(e3, Reset(5, true, 0));
    assert e3 + [Reset(5, true, 0)] == [Enable(0, true), Incoming(1, 5), Close(1, 0), Reset(5, true, 0)];
  }

  lemma RunStep(events: seq<Event>, e: Event)
    ensures Run(events + [e]) == Step(Run(events), e)
  {
    assert (events + [e])[..|events|] == events;
  }
}
