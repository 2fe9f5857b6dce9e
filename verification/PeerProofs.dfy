/**
 What every run of the transfer keeps: the receiver's buffer is segment 0 once per acceptance
 followed by the later segments once each, and it is complete whenever COMPLETE arrives.
 */
module PeerProofs {
  import opened Types
  import opened PeerTransfer

  // ---------------------------------------------------------------- the invariant

  ghost predicate Untouched(r: Peer) { r.accepts == 0 && r.segment == 0 && r.buffer == [] }

  ghost predicate Finished(file: seq<Byte>, r: Peer) {
    r.accepts >= 1 && r.segment + 1 == SegmentCount(file)
  }

  /** What a message on its way to the receiver says about both ends. */
  ghost predicate FromMaster(file: seq<Byte>, sent: nat, r: Peer, x: Msg) {
    match x.cmd
    case CONNECT => x.num == SegmentCount(file) && Untouched(r)
    case DATA => x.num <= sent && x.num < SegmentCount(file) && x.data == Segment(file, x.num)
    case COMPLETE => Finished(file, r)
    case ERROR => true
    case _ => false
  }

  ghost predicate FromReceiver(file: seq<Byte>, r: Peer, x: Msg) {
    match x.cmd
    case CONNECTACK => true
    case ACK => x.num <= r.segment && r.accepts >= 1
    case COMPLETE => Finished(file, r)
    case ERROR => true
    case _ => false
  }

  ghost predicate ChannelsOk(file: seq<Byte>, s: State) {
    && (forall i :: 0 <= i < |s.toR| ==> FromMaster(file, s.m.segment, s.r, s.toR[i]))
    && (forall i :: 0 <= i < |s.toM| ==> FromReceiver(file, s.r, s.toM[i]))
    && (forall i, j :: 0 <= i < j < |s.toR| && s.toR[j].cmd == CONNECT ==> s.toR[i].cmd == CONNECT)
  }

  ghost predicate MasterOk(file: seq<Byte>, s: State) {
    var n := SegmentCount(file);
    && s.m.master && s.m.cmd in {CONNECT, DATA, COMPLETE, ERROR}
    && (s.m.count != n ==>
          && s.toR == [] && s.toM == [] && s.m.cmd == CONNECT && s.r.cmd == Unset
          && s.m.phase == Writing && !s.m.timer && s.r.phase == Reading && !s.r.timer)
    && (s.m.segment < n || s.m.segment == 0)
    && (s.m.cmd == CONNECT ==>
          s.m.segment == 0 && Untouched(s.r) && forall i :: 0 <= i < |s.toR| ==> s.toR[i].cmd == CONNECT)
    && (s.m.cmd == COMPLETE ==> Finished(file, s.r))
  }

  ghost predicate ReceiverOk(file: seq<Byte>, s: State) {
    && !s.r.master && s.r.cmd in {Unset, CONNECTACK, ACK, COMPLETE, ERROR}
    && s.r.buffer == Assembled(file, s.r.accepts, s.r.segment)
    && s.r.segment <= s.m.segment
    && (s.m.segment >= 1 ==> s.r.accepts >= 1 && s.m.segment <= s.r.segment + 1)
    && (s.r.accepts >= 1 ==> SegmentCount(file) >= 1)
    && (s.r.cmd == ACK ==> s.r.accepts >= 1)
    && (s.r.cmd == COMPLETE ==> Finished(file, s.r))
    && (s.r.saved.Some? ==> s.r.phase == Done && s.r.saved.value == s.r.buffer)
  }

  ghost predicate Inv(file: seq<Byte>, s: State) {
    ChannelsOk(file, s) && MasterOk(file, s) && ReceiverOk(file, s)
  }

  // ---------------------------------------------------------------- steps that move no data

  /** Timers, drain reports and discarded messages only touch bookkeeping. */
  lemma MasterBookkeeping(file: seq<Byte>, s: State, m': Peer)
    requires Inv(file, s)
    requires m'.master && m'.count == SegmentCount(file) && m'.segment == s.m.segment
    requires m'.cmd == s.m.cmd || m'.cmd == ERROR
    ensures Inv(file, s.(m := m'))
  {
  }

  lemma ReceiverBookkeeping(file: seq<Byte>, s: State, r': Peer)
    requires Inv(file, s) && s.m.count == SegmentCount(file)
    requires r'.master == s.r.master && r'.segment == s.r.segment
    requires r'.accepts == s.r.accepts && r'.buffer == s.r.buffer
    requires r'.cmd == s.r.cmd || r'.cmd == ERROR || r'.cmd == CONNECTACK
    requires r'.saved.Some? ==> r'.phase == Done && r'.saved.value == r'.buffer
    ensures Inv(file, s.(r := r'))
  {
  }

  /** Losing or discarding a message keeps every claim about the others. */
  lemma LoseKeeps(file: seq<Byte>, s: State, w: bool, i: nat)
    requires Inv(file, s) && i < |Inbox(s, w)|
    ensures Inv(file, SetInbox(s, w, Inbox(s, w)[..i] + Inbox(s, w)[i + 1..]))
  {
    var c := Inbox(s, w);
    var c' := c[..i] + c[i + 1..];
    forall j | 0 <= j < |c'| ensures c'[j] == c[if j < i then j else j + 1] {
    }
  }

  lemma TakeHead(file: seq<Byte>, s: State, w: bool)
    requires Inv(file, s) && Inbox(s, w) != []
    ensures Inv(file, SetInbox(s, w, Inbox(s, w)[1..])) && s.m.count == SegmentCount(file)
  {
    var c := Inbox(s, w);
    assert c[..0] + c[1..] == c[1..];
    LoseKeeps(file, s, w, 0);
  }

  // ---------------------------------------------------------------- the receiver reads

  /** Appending segment 0 again, or the next segment. */
  lemma AssembledMore(file: seq<Byte>, accepts: nat, segment: nat)
    ensures segment == 0 ==> Assembled(file, accepts, 0) + Segment(file, 0) == Assembled(file, accepts + 1, 0)
    ensures Assembled(file, accepts, segment) + Segment(file, segment + 1) == Assembled(file, accepts, segment + 1)
  {
    var x, later, next := Segment(file, 0), Later(file, segment), Segment(file, segment + 1);
    RepeatSnoc(x, accepts);
    assert Repeat(x, accepts) + [] == Repeat(x, accepts);
    assert Repeat(x, accepts + 1) + [] == Repeat(x, accepts + 1);
    calc {
      Assembled(file, accepts, segment) + next;
      (Repeat(x, accepts) + later) + next;
      Repeat(x, accepts) + (later + next);
      Assembled(file, accepts, segment + 1);
    }
  }

  lemma {:induction false} RepeatSnoc(x: seq<Byte>, t: nat)
    ensures Repeat(x, t) + x == Repeat(x, t + 1)
  {
    if t > 0 {
      RepeatSnoc(x, t - 1);
      assert x + (Repeat(x, t - 1) + x) == (x + Repeat(x, t - 1)) + x;
    }
  }

  /** What a DATA message does to the receiver: it repeats segment 0, takes the next segment, or
      takes nothing. */
  ghost predicate Advanced(file: seq<Byte>, r: Peer, r': Peer) {
    && r'.master == r.master && r'.saved == r.saved && r'.phase != Done
    && r'.accepts >= r.accepts && r.segment <= r'.segment <= r.segment + 1
    && r'.buffer == Assembled(file, r'.accepts, r'.segment)
    && (r'.accepts > r.accepts ==> SegmentCount(file) >= 1)
    && (r'.segment > r.segment ==> r'.segment < SegmentCount(file))
    && (r'.cmd == ACK ==> r'.accepts >= 1)
    && (r'.cmd == r.cmd || r'.cmd == ACK || r'.cmd == ERROR)
  }

  lemma DataAdvances(file: seq<Byte>, r: Peer, x: Msg)
    requires r.buffer == Assembled(file, r.accepts, r.segment) && (r.segment > 0 ==> r.accepts >= 1)
    requires x.cmd == DATA && x.num < SegmentCount(file) && x.data == Segment(file, x.num)
    requires x.num == r.segment + 1 ==> r.accepts >= 1
    ensures Advanced(file, r, OnReadable(r, x))
  {
    var r' := OnReadable(r, x);
    AssembledMore(file, r.accepts, r.segment);
    if x.num == r.segment + 1 {
      assert r'.phase != Exploded ==> r'.buffer == r.buffer + Segment(file, r.segment + 1);
    } else if x.num == 0 && r.segment == 0 {
      assert r'.phase != Exploded ==> r'.buffer == r.buffer + Segment(file, 0);
    } else {
      assert r'.buffer == r.buffer && r'.accepts == r.accepts && r'.segment == r.segment;
    }
  }

  lemma ChannelsAdvance(file: seq<Byte>, s: State, r': Peer)
    requires Inv(file, s) && Advanced(file, s.r, r')
    requires forall i :: 0 <= i < |s.toR| ==> s.toR[i].cmd != CONNECT
    ensures ChannelsOk(file, s.(r := r'))
  {
    forall i | 0 <= i < |s.toR| ensures FromMaster(file, s.m.segment, r', s.toR[i]) {
      assert FromMaster(file, s.m.segment, s.r, s.toR[i]);
    }
    forall i | 0 <= i < |s.toM| ensures FromReceiver(file, r', s.toM[i]) {
      assert FromReceiver(file, s.r, s.toM[i]);
    }
  }

  /** `s` is the state with the message already taken off the channel. */
  lemma ReceiverTakesData(file: seq<Byte>, s: State, x: Msg)
    requires Inv(file, s) && s.m.count == SegmentCount(file) && s.r.phase == Reading
    requires x.cmd == DATA && FromMaster(file, s.m.segment, s.r, x)
    requires s.m.cmd != CONNECT && forall i :: 0 <= i < |s.toR| ==> s.toR[i].cmd != CONNECT
    ensures Inv(file, s.(r := OnReadable(s.r, x)))
  {
    var r' := OnReadable(s.r, x);
    DataAdvances(file, s.r, x);
    ChannelsAdvance(file, s, r');
    assert r'.segment <= s.m.segment;
  }

  lemma ReceiverReads(file: seq<Byte>, s: State)
    requires Inv(file, s) && s.r.phase == Reading && s.toR != []
    ensures Inv(file, Step(file, s, Read(false)))
  {
    var x := s.toR[0];
    var s0 := s.(toR := s.toR[1..]);
    TakeHead(file, s, false);
    assert FromMaster(file, s.m.segment, s.r, x);
    if x.cmd == DATA {
      ReceiverTakesData(file, s0, x);
    } else if x.cmd == COMPLETE {
      ReceiverFinishes(file, s0, x);
    } else {
      ReceiverBookkeeping(file, s0, OnReadable(s.r, x));
    }
  }

  lemma ReceiverFinishes(file: seq<Byte>, s: State, x: Msg)
    requires Inv(file, s) && s.m.count == SegmentCount(file) && s.r.phase == Reading
    requires x.cmd == COMPLETE && Finished(file, s.r)
    ensures Inv(file, s.(r := OnReadable(s.r, x)))
  {
  }

  // ---------------------------------------------------------------- the master reads

  lemma MasterTakesAck(file: seq<Byte>, s: State, x: Msg)
    requires Inv(file, s) && s.m.count == SegmentCount(file)
    requires x.cmd == ACK && FromReceiver(file, s.r, x)
    ensures Inv(file, s.(m := OnReadable(s.m, x)))
  {
    var m' := OnReadable(s.m, x);
    assert m'.segment >= s.m.segment && s.m.cmd != CONNECT;
    forall i | 0 <= i < |s.toR| ensures FromMaster(file, m'.segment, s.r, s.toR[i]) {
      assert FromMaster(file, s.m.segment, s.r, s.toR[i]);
    }
  }

  lemma MasterReads(file: seq<Byte>, s: State)
    requires Inv(file, s) && s.m.phase == Reading && s.toM != []
    ensures Inv(file, Step(file, s, Read(true)))
  {
    var x := s.toM[0];
    var s0 := s.(toM := s.toM[1..]);
    TakeHead(file, s, true);
    assert FromReceiver(file, s.r, x);
    if x.cmd == ACK {
      MasterTakesAck(file, s0, x);
    }
  }

  // ---------------------------------------------------------------- both write

  lemma SendToReceiver(file: seq<Byte>, s: State, x: Msg)
    requires Inv(file, s) && s.m.count == SegmentCount(file)
    requires FromMaster(file, s.m.segment, s.r, x) && (x.cmd == CONNECT <==> s.m.cmd == CONNECT)
    ensures Inv(file, s.(toR := s.toR + [x]))
  {
  }

  lemma SendToMaster(file: seq<Byte>, s: State, x: Msg)
    requires Inv(file, s) && s.m.count == SegmentCount(file) && FromReceiver(file, s.r, x)
    ensures Inv(file, s.(toM := s.toM + [x]))
  {
  }

  lemma MasterMessage(file: seq<Byte>, s: State)
    requires Inv(file, s) && s.m.phase == Writing
    ensures var (m', out) := OnWritable(s.m, file);
            && m'.master && m'.count == SegmentCount(file) && m'.segment == s.m.segment && m'.cmd == s.m.cmd
            && (out.Some? ==>
                  FromMaster(file, m'.segment, s.r, out.value) && (out.value.cmd == CONNECT <==> m'.cmd == CONNECT))
  {
    SegmentNonEmpty(file, s.m.segment);
  }

  lemma MasterWrites(file: seq<Byte>, s: State)
    requires Inv(file, s) && s.m.phase == Writing
    ensures Inv(file, Step(file, s, Write(true)))
  {
    MasterMessage(file, s);
    var (m', out) := OnWritable(s.m, file);
    MasterBookkeeping(file, s, m');
    if out.Some? {
      SendToReceiver(file, s.(m := m'), out.value);
    }
  }

  lemma ReceiverWrites(file: seq<Byte>, s: State)
    requires Inv(file, s) && s.r.phase == Writing
    ensures Inv(file, Step(file, s, Write(false)))
  {
    var (r', out) := OnWritable(s.r, file);
    ReceiverBookkeeping(file, s, r');
    if out.Some? {
      SendToMaster(file, s.(r := r'), out.value);
    }
  }

  // ---------------------------------------------------------------- runs

  lemma StepKeeps(file: seq<Byte>, s: State, e: Event)
    requires Inv(file, s)
    ensures Inv(file, Step(file, s, e))
  {
    var p := Node(s, e.master);
    var c := Inbox(s, e.master);
    match e
    case Read(w) =>
      if p.phase == Reading && c != [] {
        if w { MasterReads(file, s); } else { ReceiverReads(file, s); }
      }
    case Discard(w) =>
      if p.phase == Reading && c != [] {
        TakeHead(file, s, w);
        var s0 := SetInbox(s, w, c[1..]);
        if w { MasterBookkeeping(file, s0, OnDiscard(p)); } else { ReceiverBookkeeping(file, s0, OnDiscard(p)); }
      }
    case Write(w) =>
      if p.phase == Writing {
        if w { MasterWrites(file, s); } else { ReceiverWrites(file, s); }
      }
    case Written(w) =>
      if p.phase == Draining && p.owed {
        if w { MasterBookkeeping(file, s, OnAllWritten(p)); } else { ReceiverBookkeeping(file, s, OnAllWritten(p)); }
      }
    case Timeout(w) =>
      if p.timer && Running(p) {
        if w { MasterBookkeeping(file, s, OnTimeout(p)); } else { ReceiverBookkeeping(file, s, OnTimeout(p)); }
      }
    case Lose(w, i) => if i < |c| { LoseKeeps(file, s, w, i); }
  }

  lemma {:induction false} RunKeeps(file: seq<Byte>, events: seq<Event>)
    ensures Inv(file, Run(file, events))
    decreases |events|
  {
    if events != [] {
      RunKeeps(file, events[..|events| - 1]);
      StepKeeps(file, Run(file, events[..|events| - 1]), events[|events| - 1]);
    }
  }

  // ---------------------------------------------------------------- theorems

  /** Two neighbouring slices join. */
  lemma SlicesJoin(file: seq<Byte>, a: nat, b: nat)
    requires a <= b <= |file|
    ensures file[..a] + file[a..b] == file[..b]
  {
  }

  /** Segment 0 and the later ones are the file up to that point. */
  lemma {:induction false} SegmentsArePrefix(file: seq<Byte>, k: nat)
    ensures Segment(file, 0) + Later(file, k) == file[..Min((k + 1) * SEGMENT_SIZE, |file|)]
  {
    if k == 0 {
      assert Segment(file, 0) + [] == Segment(file, 0);
    } else {
      SegmentsArePrefix(file, k - 1);
      var a, b := Min(k * SEGMENT_SIZE, |file|), Min((k + 1) * SEGMENT_SIZE, |file|);
      calc {
        Segment(file, 0) + Later(file, k);
        Segment(file, 0) + (Later(file, k - 1) + Segment(file, k));
        (Segment(file, 0) + Later(file, k - 1)) + Segment(file, k);
        file[..a] + file[a..b];
        { SlicesJoin(file, a, b); }
        file[..b];
      }
    }
  }

  lemma AssembledPrefix(file: seq<Byte>, accepts: nat, segment: nat)
    requires accepts <= 1 && (accepts == 0 ==> segment == 0)
    ensures Assembled(file, accepts, segment) <= file
  {
    var x := Segment(file, 0);
    if accepts == 0 {
      assert Assembled(file, 0, 0) == [];
    } else {
      SegmentsArePrefix(file, segment);
      assert Repeat(x, 1) == x + Repeat(x, 0) == x;
    }
  }

  lemma BufferState(file: seq<Byte>, s: State)
    requires Inv(file, s)
    ensures s.r.buffer == Assembled(file, s.r.accepts, s.r.segment) && (s.r.accepts == 0 ==> s.r.segment == 0)
  {
  }

  /** In every run the receiver holds segment 0 once per acceptance and segments 1 to `segment`
      once each; with at most one acceptance that is a prefix of the file. */
  lemma ReceiverBuffer(file: seq<Byte>, events: seq<Event>)
    ensures var r := Run(file, events).r;
            && r.buffer == Repeat(Segment(file, 0), r.accepts) + Later(file, r.segment)
            && (r.accepts <= 1 ==> r.buffer <= file)
  {
    RunKeeps(file, events);
    BufferState(file, Run(file, events));
    var r := Run(file, events).r;
    if r.accepts <= 1 {
      AssembledPrefix(file, r.accepts, r.segment);
    }
  }

  /** A finished buffer is the file, plus one copy of segment 0 for every extra acceptance. */
  lemma FinishedBuffer(file: seq<Byte>, r: Peer)
    requires Finished(file, r) && r.buffer == Assembled(file, r.accepts, r.segment)
    ensures r.buffer == Repeat(Segment(file, 0), r.accepts - 1) + file
    ensures r.buffer == file <==> r.accepts == 1
  {
    var x, t := Segment(file, 0), r.accepts - 1;
    AllSegments(file, r.segment);
    RepeatSnoc(x, t);
    calc {
      r.buffer;
      Repeat(x, t + 1) + Later(file, r.segment);
      (Repeat(x, t) + x) + Later(file, r.segment);
      Repeat(x, t) + (x + Later(file, r.segment));
      Repeat(x, t) + file;
    }
    SegmentNonEmpty(file, 0);
    ExtraCopies(x, t, file);
  }

  lemma ExtraCopies(x: seq<Byte>, t: nat, file: seq<Byte>)
    requires x != []
    ensures Repeat(x, t) + file == file <==> t == 0
  {
    if t == 0 {
      assert [] + file == file;
    } else {
      assert |Repeat(x, t) + file| > |file| by { assert Repeat(x, t) == x + Repeat(x, t - 1); }
    }
  }

  lemma AllSegments(file: seq<Byte>, k: nat)
    requires k + 1 == SegmentCount(file)
    ensures Segment(file, 0) + Later(file, k) == file
  {
    SegmentsArePrefix(file, k);
    assert (k + 1) * SEGMENT_SIZE >= |file|;
    assert file[..|file|] == file;
  }

  /** COMPLETE is on its way to the receiver or has arrived there. */
  ghost predicate CompleteSeen(s: State) {
    s.r.cmd == COMPLETE || exists i :: 0 <= i < |s.toR| && s.toR[i].cmd == COMPLETE
  }

  lemma CompleteFinished(file: seq<Byte>, s: State)
    requires Inv(file, s) && CompleteSeen(s)
    ensures Finished(file, s.r)
  {
    if s.r.cmd != COMPLETE {
      var i :| 0 <= i < |s.toR| && s.toR[i].cmd == COMPLETE;
      assert FromMaster(file, s.m.segment, s.r, s.toR[i]);
    }
  }

  ghost predicate Whole(file: seq<Byte>, r: Peer) {
    && r.accepts >= 1
    && r.buffer == Repeat(Segment(file, 0), r.accepts - 1) + file
    && (r.buffer == file <==> r.accepts == 1)
    && (r.saved.Some? ==> r.saved.value == r.buffer)
  }

  lemma CompleteState(file: seq<Byte>, s: State)
    requires Inv(file, s) && CompleteSeen(s)
    ensures Whole(file, s.r)
  {
    CompleteFinished(file, s);
    FinishedBuffer(file, s.r);
  }

  /** In every run, once COMPLETE is under way every segment is in the buffer, and the buffer is the
      file exactly if segment 0 was accepted once. The same holds of the file a receiver saves then. */
  lemma CompleteMeansWhole(file: seq<Byte>, events: seq<Event>)
    ensures CompleteSeen(Run(file, events)) ==> Whole(file, Run(file, events).r)
  {
    RunKeeps(file, events);
    var s := Run(file, events);
    if CompleteSeen(s) {
      CompleteState(file, s);
    }
  }
}
