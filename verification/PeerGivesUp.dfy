/**
 A run in which the receiver gives up after its first segment and saves that: one copy of the first
 segment arrived, and the saved file is still not the file.
 */
module PeerGivesUp {
  import opened Types
  import opened PeerTransfer
  import opened PeerProofs
  import opened PeerArrivals
  import opened PeerSaves

  ghost predicate Reachable(file: seq<Byte>, s: State, arrivals: nat) {
    exists events :: Run(file, events) == s && Arrivals(file, events) == arrivals
  }

  lemma ReachStep(file: seq<Byte>, s: State, arrivals: nat, e: Event)
    requires Reachable(file, s, arrivals)
    ensures Reachable(file, Step(file, s, e), arrivals + One(Arrives(s, e)))
  {
    var events :| Run(file, events) == s && Arrivals(file, events) == arrivals;
    var all := events + [e];
    assert all[..|all| - 1] == events;
    assert Run(file, all) == Step(file, s, e) && Arrivals(file, all) == arrivals + One(Arrives(s, e));
  }

  lemma ReachTo(file: seq<Byte>, s: State, arrivals: nat, e: Event, t: State)
    requires Reachable(file, s, arrivals) && Step(file, s, e) == t
    ensures Reachable(file, t, arrivals + One(Arrives(s, e)))
  {
    ReachStep(file, s, arrivals, e);
  }

  function Master(cmd: Cmd, phase: Phase, owed: bool, timer: bool, count: nat): Peer {
    Peer(true, cmd, phase, owed, timer, 0, false, 0, count, [], None, 0)
  }

  function Receiver(cmd: Cmd, phase: Phase, owed: bool, timer: bool, retries: nat, count: nat, got: seq<Byte>): Peer {
    Peer(false, cmd, phase, owed, timer, retries, false, 0, count, got, None, if got == [] then 0 else 1)
  }

  // ---------------------------------------------------------------- the states of the run

  function Connecting(n: nat, i: nat): State {
    if i == 0 then Start()
    else if i == 1 then
      State(Master(CONNECT, Draining, true, false, n), Start().r, [Msg(CONNECT, n, [])], [])
    else if i == 2 then
      State(Master(CONNECT, Reading, false, true, n), Start().r, [Msg(CONNECT, n, [])], [])
    else
      State(Master(CONNECT, Reading, false, true, n), Receiver(CONNECTACK, Writing, false, false, 0, n, []), [], [])
  }

  function Accepting(n: nat, i: nat): State {
    if i == 0 then Connecting(n, 3)
    else if i == 1 then
      State(Master(CONNECT, Reading, false, true, n), Receiver(CONNECTACK, Draining, true, false, 0, n, []),
            [], [Msg(CONNECTACK, n, [])])
    else if i == 2 then
      State(Master(CONNECT, Reading, false, true, n), Receiver(CONNECTACK, Reading, false, true, 0, n, []),
            [], [Msg(CONNECTACK, n, [])])
    else
      State(Master(DATA, Writing, false, false, n), Receiver(CONNECTACK, Reading, false, true, 0, n, []), [], [])
  }

  function Sending(n: nat, x: seq<Byte>, i: nat): State {
    if i == 0 then Accepting(n, 3)
    else if i == 1 then
      State(Master(DATA, Draining, true, false, n), Receiver(CONNECTACK, Reading, false, true, 0, n, []),
            [Msg(DATA, 0, x)], [])
    else if i == 2 then
      State(Master(DATA, Reading, false, true, n), Receiver(CONNECTACK, Reading, false, true, 0, n, []),
            [Msg(DATA, 0, x)], [])
    else
      State(Master(DATA, Reading, false, true, n), Receiver(ACK, Writing, false, false, 0, n, x), [], [])
  }

  function Acking(n: nat, x: seq<Byte>): State {
    State(Master(DATA, Reading, false, true, n), Receiver(ACK, Draining, true, false, 0, n, x), [], [Msg(ACK, 0, [])])
  }

  /** The acknowledgement is not read, and the receiver waits; after `k` timeouts. */
  function Waiting(n: nat, x: seq<Byte>, k: nat): State {
    State(Master(DATA, Reading, false, true, n),
          Receiver(if k > RETRY_LIMIT + 1 then ERROR else ACK, if k == 0 then Reading else Writing,
                   false, true, k, n, x),
          [], [Msg(ACK, 0, [])])
  }

  /** The receiver gives up, and has given up. */
  function GivingUp(n: nat, x: seq<Byte>, done: bool): State {
    var r := Receiver(ERROR, Draining, true, true, RETRY_LIMIT + 2, n, x).(complete := true);
    State(Master(DATA, Reading, false, true, n),
          if done then r.(phase := Done, owed := false, timer := false, saved := Some(x)) else r,
          [], [Msg(ACK, 0, []), Msg(ERROR, 0, [])])
  }

  // ---------------------------------------------------------------- its steps

  lemma ConnectSteps(file: seq<Byte>)
    ensures var n := SegmentCount(file);
            && Step(file, Connecting(n, 0), Write(true)) == Connecting(n, 1)
            && Step(file, Connecting(n, 1), Written(true)) == Connecting(n, 2)
            && Step(file, Connecting(n, 2), Read(false)) == Connecting(n, 3)
  {
  }

  lemma AcceptSteps(file: seq<Byte>, n: nat)
    ensures Step(file, Accepting(n, 0), Write(false)) == Accepting(n, 1)
    ensures Step(file, Accepting(n, 1), Written(false)) == Accepting(n, 2)
    ensures Step(file, Accepting(n, 2), Read(true)) == Accepting(n, 3)
  {
  }

  lemma SendSteps(file: seq<Byte>, n: nat)
    requires Segment(file, 0) != []
    ensures Step(file, Sending(n, Segment(file, 0), 0), Write(true)) == Sending(n, Segment(file, 0), 1)
    ensures Step(file, Sending(n, Segment(file, 0), 1), Written(true)) == Sending(n, Segment(file, 0), 2)
  {
  }

  lemma TakeStep(file: seq<Byte>, n: nat, x: seq<Byte>)
    requires 0 < |x| <= SEGMENT_SIZE
    ensures Step(file, Sending(n, x, 2), Read(false)) == Sending(n, x, 3)
  {
    assert [] + x == x;
  }

  lemma AckSteps(file: seq<Byte>, n: nat, x: seq<Byte>)
    ensures Step(file, Sending(n, x, 3), Write(false)) == Acking(n, x)
    ensures Step(file, Acking(n, x), Written(false)) == Waiting(n, x, 0)
  {
  }

  lemma TimeoutStep(file: seq<Byte>, n: nat, x: seq<Byte>, k: nat)
    ensures Step(file, Waiting(n, x, k), Timeout(false)) == Waiting(n, x, k + 1)
  {
  }

  lemma GiveUpStep(file: seq<Byte>, n: nat, x: seq<Byte>)
    ensures Step(file, Waiting(n, x, RETRY_LIMIT + 2), Write(false)) == GivingUp(n, x, false)
  {
  }

  lemma SaveStep(file: seq<Byte>, n: nat, x: seq<Byte>)
    ensures Step(file, GivingUp(n, x, false), Written(false)) == GivingUp(n, x, true)
  {
  }

  // ---------------------------------------------------------------- the run

  lemma ReachConnected(file: seq<Byte>, n: nat)
    requires n == SegmentCount(file)
    ensures Reachable(file, Accepting(n, 0), 0)
  {
    assert Run(file, []) == Start() && Arrivals(file, []) == 0;
    ConnectSteps(file);
    ReachTo(file, Connecting(n, 0), 0, Write(true), Connecting(n, 1));
    ReachTo(file, Connecting(n, 1), 0, Written(true), Connecting(n, 2));
    ReachTo(file, Connecting(n, 2), 0, Read(false), Connecting(n, 3));
  }

  lemma ReachAccepted(file: seq<Byte>, n: nat)
    requires n == SegmentCount(file)
    ensures Reachable(file, Accepting(n, 3), 0)
  {
    ReachConnected(file, n);
    AcceptSteps(file, n);
    ReachTo(file, Accepting(n, 0), 0, Write(false), Accepting(n, 1));
    ReachTo(file, Accepting(n, 1), 0, Written(false), Accepting(n, 2));
    ReachTo(file, Accepting(n, 2), 0, Read(true), Accepting(n, 3));
  }

  lemma ReachTaken(file: seq<Byte>, n: nat, x: seq<Byte>)
    requires n == SegmentCount(file) && x == Segment(file, 0) && 0 < |x| <= SEGMENT_SIZE
    ensures Reachable(file, Sending(n, x, 3), 1)
  {
    ReachAccepted(file, n);
    SendSteps(file, n);
    ReachTo(file, Sending(n, x, 0), 0, Write(true), Sending(n, x, 1));
    ReachTo(file, Sending(n, x, 1), 0, Written(true), Sending(n, x, 2));
    TakeStep(file, n, x);
    ReachTo(file, Sending(n, x, 2), 0, Read(false), Sending(n, x, 3));
  }

  lemma ReachWaiting(file: seq<Byte>, n: nat, x: seq<Byte>)
    requires Reachable(file, Sending(n, x, 3), 1)
    ensures Reachable(file, Waiting(n, x, 0), 1)
  {
    AckSteps(file, n, x);
    ReachTo(file, Sending(n, x, 3), 1, Write(false), Acking(n, x));
    ReachTo(file, Acking(n, x), 1, Written(false), Waiting(n, x, 0));
  }

  lemma ReachTimeout(file: seq<Byte>, n: nat, x: seq<Byte>, k: nat)
    requires Reachable(file, Waiting(n, x, k), 1)
    ensures Reachable(file, Waiting(n, x, k + 1), 1)
  {
    TimeoutStep(file, n, x, k);
    ReachTo(file, Waiting(n, x, k), 1, Timeout(false), Waiting(n, x, k + 1));
  }

  lemma {:induction false} ReachTimeouts(file: seq<Byte>, n: nat, x: seq<Byte>, k: nat)
    requires Reachable(file, Waiting(n, x, 0), 1)
    ensures Reachable(file, Waiting(n, x, k), 1)
  {
    if k > 0 {
      ReachTimeouts(file, n, x, k - 1);
      ReachTimeout(file, n, x, k - 1);
    }
  }

  lemma ReachSaved(file: seq<Byte>, n: nat, x: seq<Byte>)
    requires Reachable(file, Waiting(n, x, RETRY_LIMIT + 2), 1)
    ensures Reachable(file, GivingUp(n, x, true), 1)
  {
    GiveUpStep(file, n, x);
    ReachTo(file, Waiting(n, x, RETRY_LIMIT + 2), 1, Write(false), GivingUp(n, x, false));
    SaveStep(file, n, x);
    ReachTo(file, GivingUp(n, x, false), 1, Written(false), GivingUp(n, x, true));
  }

  /** For every file of more than one segment there is a run in which its first segment arrives exactly
      once and the receiver saves that segment alone. */
  lemma CutShort(file: seq<Byte>)
    requires SegmentCount(file) >= 2
    ensures exists events ::
              && Arrivals(file, events) == 1
              && Run(file, events).r.saved == Some(Segment(file, 0)) && Segment(file, 0) != file
  {
    var n, x := SegmentCount(file), Segment(file, 0);
    FullSize(file, 0);
    NotLast(file, 0);
    assert |file| > SEGMENT_SIZE;
    ReachTaken(file, n, x);
    ReachWaiting(file, n, x);
    ReachTimeouts(file, n, x, RETRY_LIMIT + 2);
    ReachSaved(file, n, x);
    var events :| Run(file, events) == GivingUp(n, x, true) && Arrivals(file, events) == 1;
  }
}
