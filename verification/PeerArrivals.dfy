/**
 The condition for a right file, on the channel: a saved file is right exactly when the first
 segment reached the receiver once. The channel keeps the segments in order, so every copy of the
 first one comes before any other segment.
 */
module PeerArrivals {
  import opened Types
  import opened PeerTransfer
  import opened PeerProofs

  predicate FirstData(x: Msg) { x.cmd == DATA && x.num == 0 }

  /** DATA messages are in order, and none is behind what the receiver has. */
  ghost predicate InOrder(c: seq<Msg>, segment: nat) {
    && (forall i, j :: 0 <= i < j < |c| && c[i].cmd == DATA && c[j].cmd == DATA ==> c[i].num <= c[j].num)
    && (forall i :: 0 <= i < |c| && c[i].cmd == DATA ==> segment <= c[i].num)
  }

  ghost predicate Ordered(s: State) { InOrder(s.toR, s.r.segment) }

  /** Whether the event takes a copy of the first segment off the channel. */
  predicate Arrives(s: State, e: Event) {
    e == Read(false) && s.r.phase == Reading && s.toR != [] && FirstData(s.toR[0])
  }

  /** How often the first segment reached the receiver in a run. */
  function Arrivals(file: seq<Byte>, events: seq<Event>): nat
    decreases |events|
  {
    if events == [] then 0
    else
      var before := events[..|events| - 1];
      Arrivals(file, before) + if Arrives(Run(file, before), events[|events| - 1]) then 1 else 0
  }

  lemma WithoutOrdered(c: seq<Msg>, segment: nat, i: nat)
    requires InOrder(c, segment) && i < |c|
    ensures InOrder(c[..i] + c[i + 1..], segment)
  {
    var d := c[..i] + c[i + 1..];
    assert forall j :: 0 <= j < |d| ==> d[j] == c[if j < i then j else j + 1];
  }

  lemma TailOrdered(c: seq<Msg>, segment: nat, next: nat)
    requires InOrder(c, segment) && c != [] && (next == segment || (c[0].cmd == DATA && next <= c[0].num))
    ensures InOrder(c[1..], next)
  {
    assert forall i :: 0 <= i < |c| - 1 ==> c[1..][i] == c[i + 1];
  }

  /** The receiver never overtakes what is still on its way. */
  lemma NextSegment(file: seq<Byte>, s: State)
    requires Inv(file, s) && s.r.phase == Reading && s.toR != []
    ensures var next := OnReadable(s.r, s.toR[0]).segment;
            next == s.r.segment || (s.toR[0].cmd == DATA && next <= s.toR[0].num)
  {
    assert FromMaster(file, s.m.segment, s.r, s.toR[0]);
  }

  lemma MoreOrdered(c: seq<Msg>, segment: nat, x: Msg)
    requires InOrder(c, segment)
    requires x.cmd == DATA ==> segment <= x.num && forall i :: 0 <= i < |c| && c[i].cmd == DATA ==> c[i].num <= x.num
    ensures InOrder(c + [x], segment)
  {
  }

  lemma WriteOrdered(file: seq<Byte>, s: State)
    requires Inv(file, s) && Ordered(s) && s.m.phase == Writing
    ensures Ordered(Step(file, s, Write(true)))
  {
    var out := OnWritable(s.m, file).1;
    if out.Some? {
      forall i | 0 <= i < |s.toR| && s.toR[i].cmd == DATA ensures s.toR[i].num <= s.m.segment {
        assert FromMaster(file, s.m.segment, s.r, s.toR[i]);
      }
      MoreOrdered(s.toR, s.r.segment, out.value);
    }
  }

  lemma ReadOrdered(file: seq<Byte>, s: State)
    requires Inv(file, s) && Ordered(s) && s.r.phase == Reading && s.toR != []
    ensures Ordered(Step(file, s, Read(false)))
  {
    NextSegment(file, s);
    TailOrdered(s.toR, s.r.segment, OnReadable(s.r, s.toR[0]).segment);
  }

  lemma DiscardOrdered(file: seq<Byte>, s: State)
    requires Ordered(s) && s.r.phase == Reading && s.toR != []
    ensures Ordered(Step(file, s, Discard(false)))
  {
    TailOrdered(s.toR, s.r.segment, s.r.segment);
  }

  lemma LoseOrdered(file: seq<Byte>, s: State, i: nat)
    requires Ordered(s) && i < |s.toR|
    ensures Ordered(Step(file, s, Lose(false, i)))
  {
    WithoutOrdered(s.toR, s.r.segment, i);
  }

  /** All other steps leave the channel and the receiver's segment alone. */
  lemma ElseOrdered(file: seq<Byte>, s: State, e: Event)
    requires Ordered(s) && (e.master || e.Write? || e.Written? || e.Timeout?) && e != Write(true)
    ensures Ordered(Step(file, s, e))
  {
    var t := Step(file, s, e);
    assert t.toR == s.toR && t.r.segment == s.r.segment;
  }

  lemma StepOrdered(file: seq<Byte>, s: State, e: Event)
    requires Inv(file, s) && Ordered(s)
    ensures Ordered(Step(file, s, e))
  {
    if e == Write(true) {
      if s.m.phase == Writing { WriteOrdered(file, s); }
    } else if e.master || e.Write? || e.Written? || e.Timeout? {
      ElseOrdered(file, s, e);
    } else if e.Lose? {
      if e.i < |s.toR| { LoseOrdered(file, s, e.i); }
    } else if s.r.phase == Reading && s.toR != [] {
      if e.Read? { ReadOrdered(file, s); } else { DiscardOrdered(file, s); }
    }
  }

  /** Every arrival of the first segment is accepted, unless the file buffer is full. */
  lemma StepCounts(file: seq<Byte>, s: State, e: Event)
    requires Inv(file, s) && Ordered(s)
    ensures var t := Step(file, s, e);
            t.r.phase != Exploded ==>
              s.r.phase != Exploded && t.r.accepts == s.r.accepts + if Arrives(s, e) then 1 else 0
  {
    if e == Read(false) && s.r.phase == Reading && s.toR != [] {
      assert FromMaster(file, s.m.segment, s.r, s.toR[0]);
    }
  }

  lemma {:induction false} ArrivalsAreAccepts(file: seq<Byte>, events: seq<Event>)
    ensures Ordered(Run(file, events))
    ensures Run(file, events).r.phase != Exploded ==> Run(file, events).r.accepts == Arrivals(file, events)
    decreases |events|
  {
    if events != [] {
      var n := |events| - 1;
      ArrivalsAreAccepts(file, events[..n]);
      RunKeeps(file, events[..n]);
      StepOrdered(file, Run(file, events[..n]), events[n]);
      StepCounts(file, Run(file, events[..n]), events[n]);
    }
  }

  /** In every run, once COMPLETE is under way to a receiver that did not give up, its buffer is the
      file if and only if the first segment reached it exactly once. */
  lemma RightIffOnce(file: seq<Byte>, events: seq<Event>)
    requires CompleteSeen(Run(file, events)) && Run(file, events).r.phase != Exploded
    ensures Run(file, events).r.buffer == file <==> Arrivals(file, events) == 1
  {
    CompleteMeansWhole(file, events);
    ArrivalsAreAccepts(file, events);
  }

  // ---------------------------------------------------------------- written once

  /** The only form in which the first segment is on its way. */
  function FirstSegment(file: seq<Byte>): Msg { Msg(DATA, 0, Segment(file, 0)) }

  function Copies(file: seq<Byte>, c: seq<Msg>): nat { multiset(c)[FirstSegment(file)] }

  /** How often the master wrote the first segment. */
  function Departures(file: seq<Byte>, events: seq<Event>): nat
    decreases |events|
  {
    if events == [] then 0
    else
      var before := events[..|events| - 1];
      Departures(file, before) + if Departs(file, Run(file, before), events[|events| - 1]) then 1 else 0
  }

  predicate Departs(file: seq<Byte>, s: State, e: Event) {
    e == Write(true) && s.m.phase == Writing && var out := OnWritable(s.m, file).1; out.Some? && FirstData(out.value)
  }

  ghost function One(b: bool): nat { if b then 1 else 0 }

  lemma CopiesWithout(file: seq<Byte>, c: seq<Msg>, i: nat)
    requires i < |c|
    ensures Copies(file, c[..i] + c[i + 1..]) + One(c[i] == FirstSegment(file)) == Copies(file, c)
  {
    assert c == c[..i] + [c[i]] + c[i + 1..];
  }

  lemma CopiesTail(file: seq<Byte>, c: seq<Msg>)
    requires c != []
    ensures Copies(file, c[1..]) + One(c[0] == FirstSegment(file)) == Copies(file, c)
  {
    assert c == [c[0]] + c[1..];
  }

  lemma TakeConserves(file: seq<Byte>, s: State, e: Event)
    requires Inv(file, s) && (e == Read(false) || e == Discard(false)) && s.r.phase == Reading && s.toR != []
    ensures Copies(file, Step(file, s, e).toR) + One(Arrives(s, e)) <= Copies(file, s.toR)
  {
    assert FromMaster(file, s.m.segment, s.r, s.toR[0]);
    CopiesTail(file, s.toR);
  }

  lemma LoseConserves(file: seq<Byte>, s: State, i: nat)
    requires i < |s.toR|
    ensures Copies(file, Step(file, s, Lose(false, i)).toR) <= Copies(file, s.toR)
  {
    CopiesWithout(file, s.toR, i);
  }

  lemma WriteConserves(file: seq<Byte>, s: State)
    requires s.m.phase == Writing
    ensures Copies(file, Step(file, s, Write(true)).toR) <= Copies(file, s.toR) + One(Departs(file, s, Write(true)))
  {
  }

  lemma ElseConserves(file: seq<Byte>, s: State, e: Event)
    requires (e.master || e.Write? || e.Written? || e.Timeout?) && e != Write(true)
    ensures Step(file, s, e).toR == s.toR
  {
  }

  /** A copy on the channel or at the receiver was written before. */
  lemma StepConserves(file: seq<Byte>, s: State, e: Event)
    requires Inv(file, s)
    ensures Copies(file, Step(file, s, e).toR) + One(Arrives(s, e)) <= Copies(file, s.toR) + One(Departs(file, s, e))
  {
    if e == Write(true) {
      if s.m.phase == Writing { WriteConserves(file, s); }
    } else if e.master || e.Write? || e.Written? || e.Timeout? {
      ElseConserves(file, s, e);
    } else if e.Lose? {
      if e.i < |s.toR| { LoseConserves(file, s, e.i); }
    } else if s.r.phase == Reading && s.toR != [] {
      TakeConserves(file, s, e);
    }
  }

  lemma {:induction false} NoMoreThanSent(file: seq<Byte>, events: seq<Event>)
    ensures Copies(file, Run(file, events).toR) + Arrivals(file, events) <= Departures(file, events)
    decreases |events|
  {
    if events != [] {
      var n := |events| - 1;
      NoMoreThanSent(file, events[..n]);
      RunKeeps(file, events[..n]);
      StepConserves(file, Run(file, events[..n]), events[n]);
    }
  }

  /** In particular the file is right whenever the master wrote its first segment only once. */
  lemma RightIfSentOnce(file: seq<Byte>, events: seq<Event>)
    ensures var s := Run(file, events);
            CompleteSeen(s) && s.r.phase != Exploded && Departures(file, events) == 1 ==> s.r.buffer == file
  {
    NoMoreThanSent(file, events);
    CompleteMeansWhole(file, events);
    ArrivalsAreAccepts(file, events);
  }
}
