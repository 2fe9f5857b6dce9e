/**
 A run in which segment 0 is accepted twice and the receiver saves it twice, although COMPLETE
 arrives: the condition of PeerProofs.CompleteMeansWhole cannot be dropped.
 */
module PeerExample {
  import opened Types
  import opened PeerTransfer

  /** One byte, sent twice because the master's timer fires, and accepted twice. */
  const ONE_BYTE: seq<Byte> := [7]

  function Master(cmd: Cmd, phase: Phase, timer: bool, retries: nat, count: nat): Peer {
    Peer(true, cmd, phase, false, timer, retries, false, 0, count, [], None, 0)
  }

  function Receiver(cmd: Cmd, phase: Phase, timer: bool, count: nat, got: seq<Byte>, complete: bool): Peer {
    Peer(false, cmd, phase, false, timer, 0, complete, 0, count, got, if phase == Done then Some(got) else None, |got|)
  }

  function Then(s: State, a: Event, b: Event, c: Event): State {
    Step(ONE_BYTE, Step(ONE_BYTE, Step(ONE_BYTE, s, a), b), c)
  }

  ghost predicate Reachable(s: State) { exists events :: Run(ONE_BYTE, events) == s }

  lemma ReachStep(s: State, e: Event)
    requires Reachable(s)
    ensures Reachable(Step(ONE_BYTE, s, e))
  {
    var events :| Run(ONE_BYTE, events) == s;
    assert (events + [e])[..|events|] == events;
    assert Run(ONE_BYTE, events + [e]) == Step(ONE_BYTE, s, e);
  }

  lemma ReachThen(s: State, a: Event, b: Event, c: Event)
    requires Reachable(s)
    ensures Reachable(Then(s, a, b, c))
  {
    ReachStep(s, a);
    ReachStep(Step(ONE_BYTE, s, a), b);
    ReachStep(Step(ONE_BYTE, Step(ONE_BYTE, s, a), b), c);
  }

  lemma OneSegment()
    ensures SegmentCount(ONE_BYTE) == 1 && Segment(ONE_BYTE, 0) == [7]
  {
  }

  function Greeted(): State {
    State(Master(CONNECT, Reading, true, 0, 1), Receiver(CONNECTACK, Writing, false, 1, [], false),
          [], [])
  }

  function Answered(): State {
    State(Master(DATA, Writing, false, 0, 1), Receiver(CONNECTACK, Reading, true, 1, [], false),
          [], [])
  }

  function Resending(): State {
    State(Master(DATA, Writing, true, 1, 1), Receiver(CONNECTACK, Reading, true, 1, [], false),
          [Msg(DATA, 0, [7])], [])
  }

  function Accepted(): State {
    State(Master(DATA, Reading, true, 1, 1), Receiver(ACK, Writing, false, 1, [7], false),
          [Msg(DATA, 0, [7])], [])
  }

  function AcceptedTwice(): State {
    State(Master(DATA, Reading, true, 1, 1), Receiver(ACK, Writing, false, 1, [7, 7], false),
          [], [Msg(ACK, 0, [])])
  }

  function Acknowledged(): State {
    State(Master(COMPLETE, Writing, false, 0, 1), Receiver(ACK, Reading, true, 1, [7, 7], false),
          [], [Msg(ACK, 0, [])])
  }

  function Finishing(): State {
    State(Master(COMPLETE, Reading, true, 0, 1), Receiver(COMPLETE, Writing, false, 1, [7, 7], true),
          [], [Msg(ACK, 0, [])])
  }

  function Saved(): State {
    State(Master(COMPLETE, Reading, true, 0, 1), Receiver(COMPLETE, Done, false, 1, [7, 7], true),
          [], [Msg(ACK, 0, []), Msg(COMPLETE, 1, [])])
  }

  lemma ToGreeted()
    ensures Then(Start(), Write(true), Written(true), Read(false)) == Greeted()
  {
    OneSegment();
  }

  lemma ToAnswered()
    ensures Then(Greeted(), Write(false), Written(false), Read(true)) == Answered()
  {
    OneSegment();
  }

  lemma ToResending()
    ensures Then(Answered(), Write(true), Written(true), Timeout(true)) == Resending()
  {
    OneSegment();
  }

  lemma ToAccepted()
    ensures Then(Resending(), Write(true), Written(true), Read(false)) == Accepted()
  {
    OneSegment();
  }

  lemma ToAcceptedTwice()
    ensures Then(Accepted(), Write(false), Written(false), Read(false)) == AcceptedTwice()
  {
    OneSegment();
  }

  lemma ToAcknowledged()
    ensures Then(AcceptedTwice(), Write(false), Written(false), Read(true)) == Acknowledged()
  {
    OneSegment();
  }

  lemma ToFinishing()
    ensures Then(Acknowledged(), Write(true), Written(true), Read(false)) == Finishing()
  {
    OneSegment();
  }

  lemma ToSaved()
    ensures Then(Finishing(), Write(false), Written(false), Written(false)) == Saved()
  {
    OneSegment();
  }

  lemma SavedReachable()
    ensures Reachable(Saved())
  {
    assert Run(ONE_BYTE, []) == Start();
    ToGreeted();
    ReachThen(Start(), Write(true), Written(true), Read(false));
    ToAnswered();
    ReachThen(Greeted(), Write(false), Written(false), Read(true));
    ToResending();
    ReachThen(Answered(), Write(true), Written(true), Timeout(true));
    ToAccepted();
    ReachThen(Resending(), Write(true), Written(true), Read(false));
    ToAcceptedTwice();
    ReachThen(Accepted(), Write(false), Written(false), Read(false));
    ToAcknowledged();
    ReachThen(AcceptedTwice(), Write(false), Written(false), Read(true));
    ToFinishing();
    ReachThen(Acknowledged(), Write(true), Written(true), Read(false));
    ToSaved();
    ReachThen(Finishing(), Write(false), Written(false), Written(false));
  }

  /** A run in which the receiver gets COMPLETE and saves the file with segment 0 twice. */
  lemma RepeatedSegment()
    ensures exists events :: var r := Run(ONE_BYTE, events).r; r.cmd == COMPLETE && r.saved == Some(ONE_BYTE + ONE_BYTE)
  {
    SavedReachable();
    var events :| Run(ONE_BYTE, events) == Saved();
    assert ONE_BYTE + ONE_BYTE == [7, 7];
  }
}
