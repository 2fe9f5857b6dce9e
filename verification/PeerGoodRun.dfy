/**
 The transfer as it is meant to be: without losses and timeouts, every file that fits the receiver's
 buffer is sent segment by segment, saved as it is, and both nodes finish.
 */
module PeerGoodRun {
  import opened Types
  import opened PeerTransfer
  import opened PeerProofs

  /** Nothing is lost and no timer fires. */
  predicate Calm(e: Event) { !e.Lose? && !e.Discard? && !e.Timeout? }

  ghost predicate Reachable(file: seq<Byte>, s: State) {
    exists events :: (forall i :: 0 <= i < |events| ==> Calm(events[i])) && Run(file, events) == s
  }

  lemma ReachTo(file: seq<Byte>, s: State, e: Event, t: State)
    requires Reachable(file, s) && Calm(e) && Step(file, s, e) == t
    ensures Reachable(file, t)
  {
    var events :| (forall i :: 0 <= i < |events| ==> Calm(events[i])) && Run(file, events) == s;
    var all := events + [e];
    assert all[..|all| - 1] == events;
    assert Run(file, all) == t;
    assert forall i :: 0 <= i < |all| ==> Calm(all[i]);
  }

  function Master(cmd: Cmd, phase: Phase, segment: nat, count: nat): Peer {
    Peer(true, cmd, phase, phase == Draining, phase == Reading, 0, false, segment, count, [], None, 0)
  }

  function Receiver(cmd: Cmd, phase: Phase, segment: nat, count: nat, got: seq<Byte>): Peer {
    Peer(false, cmd, phase, phase == Draining, phase == Reading, 0, false, segment, count, got, None,
         if got == [] then 0 else 1)
  }

  // ---------------------------------------------------------------- the greeting

  function Greeting(n: nat, i: nat): State {
    var m := Msg(CONNECT, n, []);
    if i == 0 then Start()
    else if i == 1 then State(Master(CONNECT, Draining, 0, n), Start().r, [m], [])
    else if i == 2 then State(Master(CONNECT, Reading, 0, n), Start().r, [m], [])
    else State(Master(CONNECT, Reading, 0, n), Receiver(CONNECTACK, Writing, 0, n, []), [], [])
  }

  function Greeted(n: nat, i: nat): State {
    var m := Msg(CONNECTACK, n, []);
    if i == 0 then Greeting(n, 3)
    else if i == 1 then State(Master(CONNECT, Reading, 0, n), Receiver(CONNECTACK, Draining, 0, n, []), [], [m])
    else State(Master(CONNECT, Reading, 0, n), Receiver(CONNECTACK, Reading, 0, n, []), [], [m])
  }

  lemma GreetingSteps(file: seq<Byte>, n: nat)
    requires n == SegmentCount(file)
    ensures Step(file, Greeting(n, 0), Write(true)) == Greeting(n, 1)
    ensures Step(file, Greeting(n, 1), Written(true)) == Greeting(n, 2)
    ensures Step(file, Greeting(n, 2), Read(false)) == Greeting(n, 3)
  {
  }

  lemma GreetedSteps(file: seq<Byte>, n: nat)
    ensures Step(file, Greeted(n, 0), Write(false)) == Greeted(n, 1)
    ensures Step(file, Greeted(n, 1), Written(false)) == Greeted(n, 2)
    ensures Step(file, Greeted(n, 2), Read(true)) == Round(n, 0, [], [], 0)
  {
  }

  // ---------------------------------------------------------------- one segment

  /** The receiver before segment `k`. */
  function Before(n: nat, k: nat, got: seq<Byte>, phase: Phase): Peer {
    if k == 0 then Receiver(CONNECTACK, phase, 0, n, got) else Receiver(ACK, phase, k - 1, n, got)
  }

  /** Segment `k` goes over and is acknowledged: `got` is what the receiver has, `x` the segment. */
  function Round(n: nat, k: nat, got: seq<Byte>, x: seq<Byte>, i: nat): State {
    if i == 0 then State(Master(DATA, Writing, k, n), Before(n, k, got, Reading), [], [])
    else if i == 1 then State(Master(DATA, Draining, k, n), Before(n, k, got, Reading), [Msg(DATA, k, x)], [])
    else if i == 2 then State(Master(DATA, Reading, k, n), Before(n, k, got, Reading), [Msg(DATA, k, x)], [])
    else if i == 3 then State(Master(DATA, Reading, k, n), Receiver(ACK, Writing, k, n, got + x), [], [])
    else if i == 4 then
      State(Master(DATA, Reading, k, n), Receiver(ACK, Draining, k, n, got + x), [], [Msg(ACK, k, [])])
    else State(Master(DATA, Reading, k, n), Receiver(ACK, Reading, k, n, got + x), [], [Msg(ACK, k, [])])
  }

  lemma SendSteps(file: seq<Byte>, n: nat, k: nat, got: seq<Byte>, x: seq<Byte>)
    requires x == Segment(file, k) && x != []
    ensures Step(file, Round(n, k, got, x, 0), Write(true)) == Round(n, k, got, x, 1)
    ensures Step(file, Round(n, k, got, x, 1), Written(true)) == Round(n, k, got, x, 2)
  {
  }

  lemma TakeStep(file: seq<Byte>, n: nat, k: nat, got: seq<Byte>, x: seq<Byte>)
    requires x != [] && |got| + |x| < FILE_BUFFER && (got == [] <==> k == 0)
    ensures Step(file, Round(n, k, got, x, 2), Read(false)) == Round(n, k, got, x, 3)
  {
  }

  lemma AckSteps(file: seq<Byte>, n: nat, k: nat, got: seq<Byte>, x: seq<Byte>)
    ensures Step(file, Round(n, k, got, x, 3), Write(false)) == Round(n, k, got, x, 4)
    ensures Step(file, Round(n, k, got, x, 4), Written(false)) == Round(n, k, got, x, 5)
  {
  }

  lemma AckedStep(file: seq<Byte>, n: nat, k: nat, got: seq<Byte>, x: seq<Byte>)
    requires k < n
    ensures Step(file, Round(n, k, got, x, 5), Read(true))
            == if k == n - 1 then Ending(n, got + x, 0) else Round(n, k + 1, got + x, x, 0)
  {
  }

  // ---------------------------------------------------------------- the end

  function Finished(p: Peer): Peer { p.(complete := true) }

  function Ending(n: nat, got: seq<Byte>, i: nat): State
    requires n > 0
  {
    var k, c := n - 1, Msg(COMPLETE, n, []);
    var r := Receiver(ACK, Reading, k, n, got);
    if i == 0 then State(Master(COMPLETE, Writing, k, n), r, [], [])
    else if i == 1 then State(Master(COMPLETE, Draining, k, n), r, [c], [])
    else if i == 2 then State(Master(COMPLETE, Reading, k, n), r, [c], [])
    else if i == 3 then
      State(Master(COMPLETE, Reading, k, n), Finished(Receiver(COMPLETE, Writing, k, n, got)), [], [])
    else if i == 4 then
      State(Master(COMPLETE, Reading, k, n), Finished(Receiver(COMPLETE, Draining, k, n, got)), [], [c])
    else
      State(Master(COMPLETE, Reading, k, n), Saved(n, got), [], [c])
  }

  function Saved(n: nat, got: seq<Byte>): Peer
    requires n > 0
  {
    Finished(Receiver(COMPLETE, Done, n - 1, n, got)).(saved := Some(got))
  }

  function Leaving(n: nat, got: seq<Byte>, i: nat): State
    requires n > 0
  {
    var k, c := n - 1, Msg(COMPLETE, n, []);
    if i == 0 then Ending(n, got, 5)
    else if i == 1 then State(Finished(Master(COMPLETE, Writing, k, n)), Saved(n, got), [], [])
    else if i == 2 then State(Finished(Master(COMPLETE, Draining, k, n)), Saved(n, got), [c], [])
    else State(Finished(Master(COMPLETE, Done, k, n)), Saved(n, got), [c], [])
  }

  lemma EndingSteps(file: seq<Byte>, n: nat, got: seq<Byte>)
    requires n > 0
    ensures Step(file, Ending(n, got, 0), Write(true)) == Ending(n, got, 1)
    ensures Step(file, Ending(n, got, 1), Written(true)) == Ending(n, got, 2)
    ensures Step(file, Ending(n, got, 2), Read(false)) == Ending(n, got, 3)
  {
  }

  lemma SavingSteps(file: seq<Byte>, n: nat, got: seq<Byte>)
    requires n > 0
    ensures Step(file, Ending(n, got, 3), Write(false)) == Ending(n, got, 4)
    ensures Step(file, Ending(n, got, 4), Written(false)) == Ending(n, got, 5)
  {
  }

  lemma LeavingSteps(file: seq<Byte>, n: nat, got: seq<Byte>)
    requires n > 0
    ensures Step(file, Leaving(n, got, 0), Read(true)) == Leaving(n, got, 1)
    ensures Step(file, Leaving(n, got, 1), Write(true)) == Leaving(n, got, 2)
    ensures Step(file, Leaving(n, got, 2), Written(true)) == Leaving(n, got, 3)
  {
  }

  // ---------------------------------------------------------------- the run

  lemma ReachGreeted(file: seq<Byte>, n: nat)
    requires n == SegmentCount(file)
    ensures Reachable(file, Greeted(n, 0))
  {
    assert Run(file, []) == Start();
    GreetingSteps(file, n);
    ReachTo(file, Greeting(n, 0), Write(true), Greeting(n, 1));
    ReachTo(file, Greeting(n, 1), Written(true), Greeting(n, 2));
    ReachTo(file, Greeting(n, 2), Read(false), Greeting(n, 3));
  }

  lemma ReachFirst(file: seq<Byte>, n: nat)
    requires n == SegmentCount(file)
    ensures Reachable(file, Round(n, 0, [], [], 0))
  {
    ReachGreeted(file, n);
    GreetedSteps(file, n);
    ReachTo(file, Greeted(n, 0), Write(false), Greeted(n, 1));
    ReachTo(file, Greeted(n, 1), Written(false), Greeted(n, 2));
    ReachTo(file, Greeted(n, 2), Read(true), Round(n, 0, [], [], 0));
  }

  lemma ReachTaken(file: seq<Byte>, n: nat, k: nat, got: seq<Byte>, x: seq<Byte>)
    requires Reachable(file, Round(n, k, got, x, 0))
    requires x == Segment(file, k) && x != [] && |got| + |x| < FILE_BUFFER && (got == [] <==> k == 0)
    ensures Reachable(file, Round(n, k, got, x, 3))
  {
    SendSteps(file, n, k, got, x);
    ReachTo(file, Round(n, k, got, x, 0), Write(true), Round(n, k, got, x, 1));
    ReachTo(file, Round(n, k, got, x, 1), Written(true), Round(n, k, got, x, 2));
    TakeStep(file, n, k, got, x);
    ReachTo(file, Round(n, k, got, x, 2), Read(false), Round(n, k, got, x, 3));
  }

  lemma ReachAcked(file: seq<Byte>, n: nat, k: nat, got: seq<Byte>, x: seq<Byte>)
    requires Reachable(file, Round(n, k, got, x, 3)) && k < n
    ensures Reachable(file, if k == n - 1 then Ending(n, got + x, 0) else Round(n, k + 1, got + x, x, 0))
  {
    AckSteps(file, n, k, got, x);
    ReachTo(file, Round(n, k, got, x, 3), Write(false), Round(n, k, got, x, 4));
    ReachTo(file, Round(n, k, got, x, 4), Written(false), Round(n, k, got, x, 5));
    AckedStep(file, n, k, got, x);
    ReachTo(file, Round(n, k, got, x, 5), Read(true),
            if k == n - 1 then Ending(n, got + x, 0) else Round(n, k + 1, got + x, x, 0));
  }

  /** The file before segment `k`. */
  function Head(file: seq<Byte>, k: nat): seq<Byte> { file[..Min(k * SEGMENT_SIZE, |file|)] }

  lemma HeadGrows(file: seq<Byte>, k: nat)
    requires k < SegmentCount(file)
    ensures Head(file, k + 1) == Head(file, k) + Segment(file, k) && (Head(file, k) == [] <==> k == 0)
    ensures k + 1 == SegmentCount(file) ==> Head(file, k + 1) == file
  {
    assert k * SEGMENT_SIZE < |file|;
  }

  lemma {:induction false} ReachRound(file: seq<Byte>, n: nat, k: nat, x: seq<Byte>)
    requires n == SegmentCount(file) && k < n && |file| < FILE_BUFFER
    ensures Reachable(file, Round(n, k, Head(file, k), x, 0))
  {
    if k == 0 {
      ReachFirst(file, n);
      assert Round(n, 0, Head(file, 0), x, 0) == Round(n, 0, [], [], 0);
    } else {
      var j := k - 1;
      var y := Segment(file, j);
      ReachRound(file, n, j, y);
      HeadGrows(file, j);
      SegmentNonEmpty(file, j);
      ReachTaken(file, n, j, Head(file, j), y);
      ReachAcked(file, n, j, Head(file, j), y);
      assert Round(n, k, Head(file, k), x, 0) == Round(n, k, Head(file, k), y, 0);
    }
  }

  lemma ReachEnding(file: seq<Byte>, n: nat)
    requires n == SegmentCount(file) && 0 < |file| < FILE_BUFFER
    ensures n > 0 && Reachable(file, Ending(n, file, 0))
  {
    var k: nat := n - 1;
    var y := Segment(file, k);
    ReachRound(file, n, k, y);
    HeadGrows(file, k);
    SegmentNonEmpty(file, k);
    ReachTaken(file, n, k, Head(file, k), y);
    ReachAcked(file, n, k, Head(file, k), y);
  }

  lemma ReachSaved(file: seq<Byte>, n: nat, got: seq<Byte>)
    requires n > 0 && Reachable(file, Ending(n, got, 0))
    ensures Reachable(file, Ending(n, got, 5))
  {
    EndingSteps(file, n, got);
    ReachTo(file, Ending(n, got, 0), Write(true), Ending(n, got, 1));
    ReachTo(file, Ending(n, got, 1), Written(true), Ending(n, got, 2));
    ReachTo(file, Ending(n, got, 2), Read(false), Ending(n, got, 3));
    SavingSteps(file, n, got);
    ReachTo(file, Ending(n, got, 3), Write(false), Ending(n, got, 4));
    ReachTo(file, Ending(n, got, 4), Written(false), Ending(n, got, 5));
  }

  lemma ReachLeft(file: seq<Byte>, n: nat, got: seq<Byte>)
    requires n > 0 && Reachable(file, Leaving(n, got, 0))
    ensures Reachable(file, Leaving(n, got, 3))
  {
    LeavingSteps(file, n, got);
    ReachTo(file, Leaving(n, got, 0), Read(true), Leaving(n, got, 1));
    ReachTo(file, Leaving(n, got, 1), Write(true), Leaving(n, got, 2));
    ReachTo(file, Leaving(n, got, 2), Written(true), Leaving(n, got, 3));
  }

  /** Every file that is not empty and fits can be sent without losses and timeouts: the receiver saves
      exactly the file, and both nodes are done. */
  lemma FileIsSaved(file: seq<Byte>)
    requires 0 < |file| < FILE_BUFFER
    ensures exists events ::
              && (forall i :: 0 <= i < |events| ==> Calm(events[i]))
              && var s := Run(file, events);
                 s.r.saved == Some(file) && s.r.phase == Done && s.m.phase == Done
  {
    var n := SegmentCount(file);
    ReachEnding(file, n);
    ReachSaved(file, n, file);
    ReachLeft(file, n, file);
    var events :| (forall i :: 0 <= i < |events| ==> Calm(events[i])) && Run(file, events) == Leaving(n, file, 3);
  }

  /** What a node holds and has saved is below the size of the buffer. */
  ghost predicate Small(p: Peer) {
    |p.buffer| < FILE_BUFFER && (p.saved.Some? ==> |p.saved.value| < FILE_BUFFER)
  }

  lemma ReadSmall(p: Peer, m: Msg)
    requires Small(p)
    ensures Small(OnReadable(p, m))
  {
  }

  lemma WriteSmall(p: Peer, file: seq<Byte>)
    requires Small(p)
    ensures Small(OnWritable(p, file).0)
  {
  }

  lemma StepSmall(file: seq<Byte>, s: State, e: Event)
    requires Small(s.r)
    ensures Small(Step(file, s, e).r)
  {
    match e
    case Read(w) => if !w && s.toR != [] { ReadSmall(s.r, s.toR[0]); }
    case Write(w) => if !w { WriteSmall(s.r, file); }
    case _ =>
  }

  /** No run saves a larger file: what the receiver holds stays below the size of its buffer. */
  lemma {:induction false} TooBigNeverSaved(file: seq<Byte>, events: seq<Event>)
    ensures Small(Run(file, events).r)
    ensures |file| >= FILE_BUFFER ==> Run(file, events).r.saved != Some(file)
    decreases |events|
  {
    if events != [] {
      TooBigNeverSaved(file, events[..|events| - 1]);
      StepSmall(file, Run(file, events[..|events| - 1]), events[|events| - 1]);
    }
  }

  // ---------------------------------------------------------------- what is not as it is meant

  lemma RunSnoc(file: seq<Byte>, events: seq<Event>, e: Event)
    ensures Run(file, events + [e]) == Step(file, Run(file, events), e)
  {
    var all := events + [e];
    assert all[..|all| - 1] == events;
  }

  /** In every run a segment that the receiver has had already is acknowledged once more and not stored;
      one that is ahead of its turn is an error. */
  lemma DuplicateIsAcked(file: seq<Byte>, events: seq<Event>)
    requires var s := Run(file, events); s.r.phase == Reading && s.toR != [] && s.toR[0].cmd == DATA
    ensures var s, t := Run(file, events), Run(file, events + [Read(false)]);
            var answered := s.r.(phase := Writing, timer := false, retries := 0);
            && (s.toR[0].num < s.r.segment && s.toR[0].num > 0 ==> t.r == answered.(cmd := ACK))
            && (s.toR[0].num == 0 && s.r.segment > 0 ==> t.r == answered.(cmd := ACK))
            && (s.toR[0].num > s.r.segment + 1 ==> t.r == answered.(cmd := ERROR))
            && t.toR == s.toR[1..] && t.toM == s.toM && t.m == s.m
  {
    RunSnoc(file, events, Read(false));
  }

  /** What ends a node: an error, an unknown command, or an acknowledgement of another segment; and a
      master refuses to be connected to. */
  lemma Refusals(p: Peer, m: Msg)
    ensures m.cmd in {ERROR, Unset} || (m.cmd == ACK && m.num != p.segment) ==> OnReadable(p, m).phase == Exploded
    ensures m.cmd == CONNECT && p.master ==> OnReadable(p, m).cmd == ERROR && OnReadable(p, m).phase == Writing
  {
  }

  /** In every run a message that is thrown away is gone, and with it the timer that would ask again. */
  lemma DiscardForgets(file: seq<Byte>, events: seq<Event>, w: bool)
    requires var s := Run(file, events); Node(s, w).phase == Reading && Inbox(s, w) != []
    ensures var s, t := Run(file, events), Run(file, events + [Discard(w)]);
            && Inbox(t, w) == Inbox(s, w)[1..] && Inbox(t, !w) == Inbox(s, !w) && Node(t, !w) == Node(s, !w)
            && Node(t, w) == Node(s, w).(timer := false, retries := 0)
  {
    RunSnoc(file, events, Discard(w));
  }
}
