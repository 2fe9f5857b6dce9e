/**
 The race told by its events alone: what the first timer and the first completion of a candidate make
 of it, who wins, and when total failure is reported.
 */
module RaceFates {
  import opened Types
  import opened HappyEyeballs

  /** What a candidate comes to as long as the race is open: a timer starts it or gives it up, and its
      first completion decides. */
  function Fate(events: seq<Event>, i: nat): Status {
    if events == [] then Waiting
    else
      var f := Fate(events[..|events| - 1], i);
      match events[|events| - 1]
      case Timer(j, started) => if j == i && f == Waiting then (if started then Connecting else Dropped) else f
      case Ready(j, outcome, _) => if j == i && f == Connecting then Verdict(outcome) else f
      case Poll(_) => f
  }

  function Verdict(outcome: Outcome): Status {
    match outcome
    case Unreadable => Broken
    case Refused => Dropped
    case Connected(turnedDown) => if turnedDown then Dropped else Winner
  }

  /** The first candidate that connects. */
  function FirstToConnect(n: nat, events: seq<Event>): Option<nat> {
    if events == [] then None
    else
      var before := FirstToConnect(n, events[..|events| - 1]);
      var e := events[|events| - 1];
      if before.Some? then before
      else if e.Ready? && e.i < n && Fate(events, e.i) == Winner then Some(e.i)
      else None
  }

  /** While nobody has connected, every candidate has come to its fate. */
  ghost predicate Told(n: nat, events: seq<Event>, s: State) {
    && |s.cands| == n
    && s.socket == FirstToConnect(n, events)
    && (s.socket == None ==> forall i :: 0 <= i < n ==> s.cands[i] == Fate(events, i))
  }

  lemma FateStep(events: seq<Event>, e: Event, i: nat)
    ensures Fate(events + [e], i) ==
            var f := Fate(events, i);
            if e.Timer? && e.i == i && f == Waiting then (if e.started then Connecting else Dropped)
            else if e.Ready? && e.i == i && f == Connecting then Verdict(e.outcome)
            else f
  {
    assert (events + [e])[..|events|] == events;
  }

  lemma FirstStep(n: nat, events: seq<Event>, e: Event)
    ensures FirstToConnect(n, events + [e]) ==
            if FirstToConnect(n, events).Some? then FirstToConnect(n, events)
            else if e.Ready? && e.i < n && Fate(events + [e], e.i) == Winner then Some(e.i)
            else None
  {
    assert (events + [e])[..|events|] == events;
  }

  /** Nobody has connected as long as no fate is to have won. */
  lemma {:induction false} OpenMeans(n: nat, events: seq<Event>, i: nat)
    requires FirstToConnect(n, events) == None && i < n
    ensures Fate(events, i) != Winner
    decreases |events|
  {
    if events != [] {
      var before, e := events[..|events| - 1], events[|events| - 1];
      assert events == before + [e];
      FirstStep(n, before, e);
      OpenMeans(n, before, i);
      FateStep(before, e, i);
    }
  }

  lemma StepTold(n: nat, events: seq<Event>, s: State, e: Event)
    requires Inv(n, s) && Told(n, events, s)
    ensures Told(n, events + [e], Step(s, e))
  {
    FirstStep(n, events, e);
    if s.socket == None {
      forall i | 0 <= i < n ensures s.cands[i] == Fate(events, i) != Winner {
        OpenMeans(n, events, i);
      }
      forall i: nat ensures Fate(events + [e], i) ==
            var f := Fate(events, i);
            if e.Timer? && e.i == i && f == Waiting then (if e.started then Connecting else Dropped)
            else if e.Ready? && e.i == i && f == Connecting then Verdict(e.outcome)
            else f
      {
        FateStep(events, e, i);
      }
    }
  }

  lemma {:induction false} RunTold(n: nat, events: seq<Event>)
    ensures Told(n, events, Run(n, events))
    decreases |events|
  {
    if events != [] {
      var before, e := events[..|events| - 1], events[|events| - 1];
      RunTold(n, before);
      RunKeeps(n, before);
      StepTold(n, before, Run(n, before), e);
      assert events == before + [e];
    }
  }

  /** In every run the flow's socket is the first candidate to connect, and until then every candidate
      is where its own events have brought it. */
  lemma SocketIsFirst(n: nat, events: seq<Event>)
    ensures var s := Run(n, events);
            && s.socket == FirstToConnect(n, events)
            && (s.socket == None ==> |s.cands| == n && forall i :: 0 <= i < n ==> s.cands[i] == Fate(events, i))
  {
    RunTold(n, events);
  }

  /** A verdict stands. */
  lemma {:induction false} FirstWon(n: nat, events: seq<Event>)
    requires FirstToConnect(n, events).Some?
    ensures FirstToConnect(n, events).value < n && Fate(events, FirstToConnect(n, events).value) == Winner
    decreases |events|
  {
    var before, e := events[..|events| - 1], events[|events| - 1];
    assert events == before + [e];
    FirstStep(n, before, e);
    if FirstToConnect(n, before).Some? {
      FirstWon(n, before);
      FateStep(before, e, FirstToConnect(n, before).value);
    }
  }

  /** Every candidate had a failed timer, or a first completion that was refused or turned down. */
  ghost predicate AllFail(n: nat, events: seq<Event>) {
    forall i :: 0 <= i < n ==> Fate(events, i) == Dropped
  }

  /** With up to 256 candidates total failure is reported, and then once, if and only if each of them
      failed by its own events. */
  lemma FailureReportedIff(n: nat, events: seq<Event>)
    requires n <= 256
    ensures AllFailedReports(Run(n, events).reports) == if n > 0 && AllFail(n, events) then 1 else 0
  {
    RunTold(n, events);
    RunKeeps(n, events);
    var s := Run(n, events);
    FailuresAll(s.cands);
    if AllFail(n, events) {
      if s.socket.Some? {
        FirstWon(n, events);
      }
    }
  }

  // ---------------------------------------------------------------- each event on its candidate

  lemma RunSnoc(n: nat, events: seq<Event>, e: Event)
    ensures Run(n, events + [e]) == Step(Run(n, events), e)
  {
    assert (events + [e])[..|events|] == events;
  }

  /** `t` is `s` with one candidate fewer in the race. */
  ghost predicate GivenUp(s: State, t: State, i: nat)
    requires i < |s.cands|
  {
    && t.cands == s.cands[i := Dropped]
    && t.count == (if s.count == 0 then 255 else s.count - 1)
    && t.socket == s.socket && t.pending == s.pending
    && t.reports == s.reports + if t.count == 0 then [AllFailed] else []
  }

  /** In every run a completion of a connecting candidate does exactly one of four things. */
  lemma ReadyDecides(n: nat, events: seq<Event>, i: nat, outcome: Outcome, cleared: bool)
    requires i < |Run(n, events).cands| && Run(n, events).cands[i] == Connecting
    ensures var s, t := Run(n, events), Run(n, events + [Ready(i, outcome, cleared)]);
            if outcome == Unreadable then t == s.(cands := s.cands[i := Broken], reports := s.reports + [Internal])
            else if s.pending then t == s.(pending := !cleared)
            else if outcome == Connected(false) && s.socket == None then
              && t.cands == s.cands[i := Winner] && t.socket == Some(i) && t.pending == !cleared
              && t.count == s.count && t.reports == s.reports
            else GivenUp(s, t, i)
  {
    RunKeeps(n, events);
    RunSnoc(n, events, Ready(i, outcome, cleared));
  }

  /** In every run a timer starts its candidate or gives it up. */
  lemma TimerDecides(n: nat, events: seq<Event>, i: nat, started: bool)
    requires i < |Run(n, events).cands| && Run(n, events).cands[i] == Waiting
    ensures var s, t := Run(n, events), Run(n, events + [Timer(i, started)]);
            if started then t == s.(cands := s.cands[i := Connecting]) else GivenUp(s, t, i)
  {
    RunSnoc(n, events, Timer(i, started));
  }

  /** The event runs the poll callback of the winner, which sees whether it is writable. */
  predicate Polls(s: State, e: Event) {
    match e
    case Timer(_, _) => false
    case Poll(cleared) => cleared
    case Ready(i, outcome, cleared) => cleared && outcome != Unreadable && i < |s.cands| && s.cands[i] == Connecting
  }

  /** Whether the winner's first write is still outstanding: since it won, nothing saw it writable. */
  function Outstanding(n: nat, events: seq<Event>): bool {
    events != [] &&
    var before, e := events[..|events| - 1], events[|events| - 1];
    if FirstToConnect(n, events) != FirstToConnect(n, before) then e.Ready? && !e.cleared
    else Outstanding(n, before) && !Polls(Run(n, before), e)
  }

  lemma {:induction false} PendingIff(n: nat, events: seq<Event>)
    ensures Run(n, events).pending <==> Outstanding(n, events)
    decreases |events|
  {
    if events != [] {
      var before, e := events[..|events| - 1], events[|events| - 1];
      assert events == before + [e];
      PendingIff(n, before);
      RunKeeps(n, before);
      RunTold(n, before);
      RunTold(n, events);
    }
  }
}
