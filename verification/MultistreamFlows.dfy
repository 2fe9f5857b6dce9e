/**
 Who is on an association, told by its events: flows join, stay listed until they leave, and leave
 when they are open and closed or fully reset.
 */
module MultistreamFlows {
  import opened Types
  import opened Multistream

  /** The association is shared from the first event that enables it. */
  ghost predicate Shared(events: seq<Event>) { exists i :: 0 <= i < |events| && events[i].Enable? }

  /** An event brings a flow that is not known yet: the first one, one that piggybacks, or one that data
      opens on a stream of no listed flow. */
  ghost predicate Brings(shared: bool, known: seq<nat>, s: State, e: Event) {
    || (e.Enable? && !shared)
    || (e.Piggyback? && shared && e.id !in known)
    || (e.Incoming? && shared && e.id !in known && !StreamListed(s, e.sid))
  }

  function IdOf(e: Event): nat {
    if e.Enable? || e.Piggyback? || e.Incoming? || e.Connected? || e.Close? then e.id else 0
  }

  /** The flows that joined, in order. */
  ghost function Joins(events: seq<Event>): seq<nat>
    decreases |events|
  {
    if events == [] then []
    else
      var before, e := events[..|events| - 1], events[|events| - 1];
      Joins(before) + if Brings(Shared(before), Joins(before), Run(before), e) then [IdOf(e)] else []
  }

  ghost predicate StreamListed(s: State, sid: nat) { exists i :: 0 <= i < |s.flows| && s.flows[i].sid == sid }

  ghost predicate Listed(s: State, id: nat) { exists i :: 0 <= i < |s.flows| && s.flows[i].id == id }

  lemma FoundIff(s: State, key: Key)
    ensures IndexOf(s.flows, key).Some? <==> exists i :: 0 <= i < |s.flows| && key.Names(s.flows[i])
  {
  }

  /** The flows that joined are those listed and those that left. */
  ghost predicate Accounted(events: seq<Event>, s: State) {
    && (s.enabled <==> Shared(events))
    && forall id: nat :: id in Joins(events) <==> Listed(s, id) || id in s.gone
  }

  /** Which flows a step lists or has let go, besides one that joins. */
  ghost predicate Kept(s: State, t: State) {
    t.enabled == s.enabled && forall id: nat :: Listed(t, id) || id in t.gone <==> Listed(s, id) || id in s.gone
  }

  lemma InsertLists(s: State, t: State, f: Flow)
    requires t.flows == [f] + s.flows && t.gone == s.gone
    ensures forall id: nat :: Listed(t, id) || id in t.gone <==> id == f.id || Listed(s, id) || id in s.gone
  {
    assert t.flows[0] == f;
    forall id: nat | Listed(s, id) ensures Listed(t, id) {
      var i :| 0 <= i < |s.flows| && s.flows[i].id == id;
      assert t.flows[i + 1].id == id;
    }
  }

  lemma UpdateLists(s: State, t: State, i: nat)
    requires i < |s.flows| && |t.flows| == |s.flows| && t.flows[i].id == s.flows[i].id
    requires forall k :: 0 <= k < |s.flows| && k != i ==> t.flows[k] == s.flows[k]
    ensures forall id: nat :: Listed(t, id) <==> Listed(s, id)
  {
    forall id: nat | Listed(s, id) ensures Listed(t, id) {
      var k :| 0 <= k < |s.flows| && s.flows[k].id == id;
      assert t.flows[k].id == id;
    }
  }

  lemma RemoveLists(s: State, t: State, i: nat)
    requires i < |s.flows| && t.flows == Remove(s.flows, i) && t.gone == s.gone + [s.flows[i].id]
    ensures forall id: nat :: Listed(t, id) || id in t.gone <==> Listed(s, id) || id in s.gone
  {
    assert t.gone[|s.gone|] == s.flows[i].id;
    forall id: nat | Listed(s, id) ensures Listed(t, id) || id in t.gone {
      var k :| 0 <= k < |s.flows| && s.flows[k].id == id;
      if k != i {
        assert t.flows[if k < i then k else k - 1] == s.flows[k];
      }
    }
    forall id: nat | Listed(t, id) ensures Listed(s, id) {
      var k :| 0 <= k < |t.flows| && t.flows[k].id == id;
      assert s.flows[if k < i then k else k + 1] == t.flows[k];
    }
  }

  /** A notification takes an open flow off the list and leaves another where it is. */
  lemma NotifyLists(s: State, i: nat, again: nat)
    requires i < |s.flows|
    ensures var t := NotifyClose(s, i, again);
            if s.flows[i].open then t.flows == Remove(s.flows, i) && t.gone == s.gone + [s.flows[i].id] else t == s
    ensures NotifyClose(s, i, again).enabled == s.enabled
  {
    if s.flows[i].open {
      var flows := s.flows[i := s.flows[i].(open := false)];
      assert Remove(flows, i) == Remove(s.flows, i);
    }
  }

  lemma CloseKept(s: State, i: nat, again: nat)
    requires i < |s.flows|
    ensures Kept(s, HandleClose(s, i, again))
  {
    var s1 := if s.flows[i].open then Decrement(s, s.flows[i].id) else s;
    var s2 := MaybeCloseSocket(s1, i);
    NotifyLists(s2, i, again);
    if s.flows[i].open {
      RemoveLists(s, HandleClose(s, i, again), i);
    }
  }

  lemma ResetKept(s: State, i: nat, incoming: bool, again: nat)
    requires i < |s.flows|
    ensures Kept(s, HandleReset(s, i, incoming, again))
  {
    var f := s.flows[i];
    var s1 := s.(flows := s.flows[i := if incoming then f.(resetIn := true) else f.(resetOut := true)]);
    UpdateLists(s, s1, i);
    var g := s1.flows[i];
    if g.resetIn && g.resetOut {
      var s2 := Decrement(s1, g.id);
      var s3 := if g.open then s2 else s2.(early := s2.early + 1);
      NotifyLists(s3, i, again);
      if g.open {
        RemoveLists(s1, NotifyClose(s3, i, again), i);
      }
    }
  }

  lemma ConnectKept(s: State, i: nat)
    requires i < |s.flows|
    ensures Kept(s, s.(flows := s.flows[i := s.flows[i].(open := true)]))
  {
    UpdateLists(s, s.(flows := s.flows[i := s.flows[i].(open := true)]), i);
  }

  lemma SharedSnoc(events: seq<Event>, e: Event)
    ensures Shared(events + [e]) <==> Shared(events) || e.Enable?
  {
    var all := events + [e];
    if Shared(events) {
      var i :| 0 <= i < |events| && events[i].Enable?;
      assert all[i].Enable?;
    }
    assert all[|events|] == e;
  }

  lemma JoinsSnoc(events: seq<Event>, e: Event)
    ensures Joins(events + [e])
            == Joins(events) + if Brings(Shared(events), Joins(events), Run(events), e) then [IdOf(e)] else []
  {
    assert (events + [e])[..|events|] == events;
  }

  /** Events without a new flow. */
  lemma OtherKept(s: State, e: Event)
    requires e.Connected? || e.Reset? || e.Close?
    ensures Kept(s, Step(s, e))
  {
    match e
    case Connected(id) =>
      var i := IndexOf(s.flows, Id(id));
      if i.Some? { ConnectKept(s, i.value); }
    case Reset(sid, incoming, again) =>
      var i := IndexOf(s.flows, Sid(sid));
      if i.Some? { ResetKept(s, i.value, incoming, again); }
    case Close(id, again) =>
      var i := IndexOf(s.flows, Id(id));
      if i.Some? { CloseKept(s, i.value, again); }
  }

  lemma UnknownIff(events: seq<Event>, s: State, id: nat)
    requires Accounted(events, s)
    ensures Unknown(s, id) <==> id !in Joins(events)
  {
    FoundIff(s, Id(id));
  }

  /** A flow joins the list, and it alone. */
  ghost predicate Joined(s: State, t: State, f: Flow) {
    t.flows == [f] + s.flows && t.gone == s.gone && t.enabled
  }

  /** The flow that an event brings. A flow that piggybacks gets the new count as its stream. */
  function NewFlow(s: State, e: Event): Flow
    requires e.Enable? || e.Piggyback? || e.Incoming?
  {
    match e
    case Enable(id, open) => Flow(id, 0, open, false, false)
    case Piggyback(id) => Flow(id, if s.used >= 0 then s.used + 1 else 0, true, false, false)
    case Incoming(id, sid) => Flow(id, sid, true, false, false)
  }

  /** An event that brings a flow lists it in front of the others and counts it; one that cannot bring
      it changes nothing. */
  ghost predicate Follows(brings: bool, s: State, e: Event, t: State)
    requires e.Enable? || e.Piggyback? || e.Incoming?
  {
    if brings then Joined(s, t, NewFlow(s, e)) && t.used == s.used + 1 else t == s
  }

  lemma EnableStep(s: State, id: nat, open: bool)
    requires Inv(s)
    ensures Follows(!s.enabled, s, Enable(id, open), Step(s, Enable(id, open)))
  {
    var f := Flow(id, 0, open, false, false);
    if !s.enabled {
      assert s == State(false, 0, [], [], [], [], 0, s.fault);
      assert Step(s, Enable(id, open)) == State(true, 1, [f], [], [], [], 0, s.fault);
      assert [f] == [f] + s.flows;
    }
  }

  lemma PiggybackStep(s: State, id: nat)
    ensures Follows(s.enabled && Unknown(s, id), s, Piggyback(id), Step(s, Piggyback(id)))
  {
  }

  lemma IncomingStep(s: State, id: nat, sid: nat)
    ensures var e := Incoming(id, sid);
            Follows(s.enabled && Unknown(s, id) && !StreamListed(s, sid), s, e, Step(s, e))
  {
    FoundIff(s, Sid(sid));
    assert StreamListed(s, sid) <==> IndexOf(s.flows, Sid(sid)).Some?;
  }

  lemma JoinStep(events: seq<Event>, s: State, e: Event)
    requires Inv(s) && Accounted(events, s) && (e.Enable? || e.Piggyback? || e.Incoming?)
    ensures Follows(Brings(Shared(events), Joins(events), s, e), s, e, Step(s, e))
  {
    UnknownIff(events, s, IdOf(e));
    match e
    case Enable(id, open) => EnableStep(s, id, open);
    case Piggyback(id) => PiggybackStep(s, id);
    case Incoming(id, sid) => IncomingStep(s, id, sid);
  }

  lemma StepAccounted(events: seq<Event>, s: State, e: Event)
    requires Inv(s) && Accounted(events, s) && s == Run(events)
    ensures Accounted(events + [e], Step(s, e))
  {
    SharedSnoc(events, e);
    JoinsSnoc(events, e);
    var t := Step(s, e);
    if e.Connected? || e.Reset? || e.Close? {
      OtherKept(s, e);
    } else {
      JoinStep(events, s, e);
      if Brings(Shared(events), Joins(events), s, e) {
        InsertLists(s, t, NewFlow(s, e));
      }
    }
  }

  lemma NextAccounted(events: seq<Event>, e: Event)
    requires Accounted(events, Run(events))
    ensures Accounted(events + [e], Run(events + [e]))
  {
    RunKeeps(events);
    StepAccounted(events, Run(events), e);
    RunStep(events, e);
  }

  lemma {:induction false} RunAccounted(events: seq<Event>)
    ensures Accounted(events, Run(events))
    decreases |events|
  {
    if events == [] {
      assert Joins(events) == [];
    } else {
      var before, e := events[..|events| - 1], events[|events| - 1];
      RunAccounted(before);
      NextAccounted(before, e);
      assert before + [e] == events;
    }
  }

  /** In every run the flows that joined are exactly those that are listed and those that left. */
  lemma FlowsConserved(events: seq<Event>, id: nat)
    ensures var s := Run(events);
            && (s.enabled <==> Shared(events))
            && (id in Joins(events) <==> Listed(s, id) || id in s.gone)
  {
    RunAccounted(events);
  }

  /** In every run an event that brings a flow lists and counts it, and one that cannot does nothing. */
  lemma JoinAdds(events: seq<Event>, e: Event)
    requires e.Enable? || e.Piggyback? || e.Incoming?
    ensures Follows(Brings(Shared(events), Joins(events), Run(events), e), Run(events), e, Run(events + [e]))
  {
    RunAccounted(events);
    RunKeeps(events);
    RunStep(events, e);
    JoinStep(events, Run(events), e);
  }

  /** In every run a close takes an open flow off the list, counts it down and lets it go; a flow that
      is not connected stays. */
  lemma CloseTakes(events: seq<Event>, i: nat, again: nat)
    requires i < |Run(events).flows|
    requires forall k :: 0 <= k < i ==> Run(events).flows[k].id != Run(events).flows[i].id
    ensures var s := Run(events);
            var f := s.flows[i];
            var t := Run(events + [Close(f.id, again)]);
            if f.open then
              && t.flows == s.flows[..i] + s.flows[i + 1..] && t.gone == s.gone + [f.id] && t.used == s.used - 1
              && t.decrements == s.decrements + [f.id]
            else t.flows == s.flows && t.gone == s.gone && t.used == s.used && t.decrements == s.decrements
  {
    var s := Run(events);
    var id := s.flows[i].id;
    RunStep(events, Close(id, again));
    assert IndexOf(s.flows, Id(id)) == Some(i);
    var s1 := if s.flows[i].open then Decrement(s, id) else s;
    NotifyLists(MaybeCloseSocket(s1, i), i, again);
  }

  /** In every run a connected flow is open from then on, and nothing else changes. */
  lemma ConnectOpens(events: seq<Event>, i: nat)
    requires i < |Run(events).flows|
    requires forall k :: 0 <= k < i ==> Run(events).flows[k].id != Run(events).flows[i].id
    ensures var s := Run(events);
            Run(events + [Connected(s.flows[i].id)]) == s.(flows := s.flows[i := s.flows[i].(open := true)])
  {
    var s := Run(events);
    RunStep(events, Connected(s.flows[i].id));
    assert IndexOf(s.flows, Id(s.flows[i].id)) == Some(i);
  }

  lemma {:induction false} AgainCount(s: State, i: nat, again: nat)
    requires i < |s.flows|
    ensures |CloseAgain(s, i, again).closings| == |s.closings| + if s.used == 0 then again else 0
    decreases again
  {
    if again > 0 {
      AgainCount(MaybeCloseSocket(s, i), i, again - 1);
    }
  }

  /** In every run a close closes the socket if it leaves the count at zero, and once more for every
      close that the application makes inside on_close of an open flow. */
  lemma CloseShuts(events: seq<Event>, i: nat, again: nat)
    requires i < |Run(events).flows|
    requires forall k :: 0 <= k < i ==> Run(events).flows[k].id != Run(events).flows[i].id
    ensures var s := Run(events);
            var f := s.flows[i];
            var t := Run(events + [Close(f.id, again)]);
            |t.closings| == |s.closings| + if t.used == 0 then 1 + (if f.open then again else 0) else 0
  {
    var s := Run(events);
    var id := s.flows[i].id;
    RunStep(events, Close(id, again));
    assert IndexOf(s.flows, Id(id)) == Some(i);
    var s1 := if s.flows[i].open then Decrement(s, id) else s;
    var s2 := MaybeCloseSocket(s1, i);
    if s.flows[i].open {
      AgainCount(s2.(flows := s2.flows[i := s2.flows[i].(open := false)]), i, again);
    }
  }
}
