/**
 The stop-and-wait file transfer of the peer example: two nodes alternate between reading and
 writing, each resends on a timer, and a FIFO channel in each direction may lose messages.
 */
module PeerTransfer {
  import opened Types

  const SEGMENT_SIZE := 1024
  const FILE_BUFFER := 128 * 1024
  const RETRY_LIMIT := 10

  datatype Cmd = Unset | CONNECT | CONNECTACK | DATA | ACK | COMPLETE | ERROR

  datatype Msg = Msg(cmd: Cmd, num: nat, data: seq<Byte>)

  /** Reading waits for a message, Writing for a writable socket, Draining for the write to leave.
      Done is closed; Exploded left the process. */
  datatype Phase = Reading | Writing | Draining | Done | Exploded

  /** `owed` says that a write was made whose departure has not been reported yet; `accepts` counts how
      often segment 0 was appended. */
  datatype Peer = Peer(
    master: bool,
    cmd: Cmd,
    phase: Phase,
    owed: bool,
    timer: bool,
    retries: nat,
    complete: bool,
    segment: nat,
    count: nat,
    buffer: seq<Byte>,
    saved: Option<seq<Byte>>,
    accepts: nat)

  // ---------------------------------------------------------------- the file in segments

  function Min(a: nat, b: nat): nat { if a < b then a else b }

  /** openfile: the size of the file divided by the segment size, rounded up. */
  function SegmentCount(file: seq<Byte>): nat { (|file| + SEGMENT_SIZE - 1) / SEGMENT_SIZE }

  /** Segment `k` of the file: what fseek to `k` segment sizes and one fread give. */
  function Segment(file: seq<Byte>, k: nat): seq<Byte> {
    file[Min(k * SEGMENT_SIZE, |file|)..Min((k + 1) * SEGMENT_SIZE, |file|)]
  }

  /** Exactly the segments below the count have bytes to send. */
  lemma SegmentNonEmpty(file: seq<Byte>, k: nat)
    ensures Segment(file, k) != [] <==> k < SegmentCount(file)
  {
    var n := |file|;
    assert k * SEGMENT_SIZE < n <==> k < SegmentCount(file);
    if k * SEGMENT_SIZE < n {
      assert |Segment(file, k)| == Min((k + 1) * SEGMENT_SIZE, n) - k * SEGMENT_SIZE;
    } else {
      assert |Segment(file, k)| == 0;
    }
  }

  /** Segments 1 to `k`. */
  function Later(file: seq<Byte>, k: nat): seq<Byte> {
    if k == 0 then [] else Later(file, k - 1) + Segment(file, k)
  }

  function Repeat(x: seq<Byte>, t: nat): seq<Byte> {
    if t == 0 then [] else x + Repeat(x, t - 1)
  }

  function Assembled(file: seq<Byte>, accepts: nat, segment: nat): seq<Byte> {
    Repeat(Segment(file, 0), accepts) + Later(file, segment)
  }

  // ---------------------------------------------------------------- one node

  /** on_readable with the message at the head of the channel. */
  function OnReadable(p: Peer, m: Msg): Peer {
    var q := p.(timer := false, retries := 0, phase := Writing);
    match m.cmd
    case CONNECT =>
      if !p.master then q.(cmd := CONNECTACK, count := m.num, segment := 0) else q.(cmd := ERROR)
    case COMPLETE => q.(cmd := COMPLETE, complete := true)
    case CONNECTACK => q.(cmd := DATA)
    case DATA =>
      if (m.num == 0 && p.segment == 0) || m.num == p.segment + 1 then
        if |p.buffer| + |m.data| < FILE_BUFFER then
          q.(buffer := p.buffer + m.data, cmd := ACK,
             segment := if m.num == p.segment + 1 then p.segment + 1 else p.segment,
             accepts := if m.num == 0 then p.accepts + 1 else p.accepts)
        else q.(phase := Exploded)
      else if m.num < p.segment then q.(cmd := ACK)
      else q.(cmd := ERROR)
    case ACK =>
      if p.segment == m.num then
        if p.count > 0 && p.segment == p.count - 1 then q.(cmd := COMPLETE)
        else q.(cmd := DATA, segment := p.segment + 1)
      else q.(phase := Exploded)
    case ERROR => q.(phase := Exploded)
    case Unset => q.(phase := Exploded)
  }

  /** The random loss in on_readable: the message is gone and so is the timer. */
  function OnDiscard(p: Peer): Peer {
    p.(timer := false, retries := 0)
  }

  /** on_writable: the message written, if any. At the end of the file nothing is written, and
      nothing but a timer will wake the node. */
  function OnWritable(p: Peer, file: seq<Byte>): (Peer, Option<Msg>) {
    var q := p.(phase := Draining, owed := true);
    match p.cmd
    case CONNECT => (q.(count := SegmentCount(file)), Some(Msg(CONNECT, SegmentCount(file), [])))
    case COMPLETE => (q, Some(Msg(COMPLETE, p.count, [])))
    case CONNECTACK => (q, Some(Msg(CONNECTACK, p.count, [])))
    case DATA =>
      var bytes := Segment(file, p.segment);
      if bytes == [] then (p.(phase := Draining), None) else (q, Some(Msg(DATA, p.segment, bytes)))
    case ACK => (q, Some(Msg(ACK, p.segment, [])))
    case ERROR => (q.(complete := true), Some(Msg(ERROR, 0, [])))
    case Unset => (p.(phase := Exploded), None)
  }

  /** on_all_written: a finished receiver saves what it has. */
  function OnAllWritten(p: Peer): Peer {
    var q := p.(owed := false);
    if p.complete then
      q.(timer := false, phase := Done, saved := if p.master then None else Some(p.buffer))
    else q.(phase := Reading, timer := true)
  }

  /** on_timeout: the repeating timer asks for another write. */
  function OnTimeout(p: Peer): Peer {
    p.(phase := Writing, retries := p.retries + 1, cmd := if p.retries > RETRY_LIMIT then ERROR else p.cmd)
  }

  // ---------------------------------------------------------------- two nodes and two channels

  datatype State = State(m: Peer, r: Peer, toR: seq<Msg>, toM: seq<Msg>)

  /** `master` says which node moves. */
  datatype Event =
    | Read(master: bool)
    | Discard(master: bool)
    | Write(master: bool)
    | Written(master: bool)
    | Timeout(master: bool)
    | Lose(master: bool, i: nat)

  function Start(): State {
    State(Peer(true, CONNECT, Writing, false, false, 0, false, 0, 0, [], None, 0),
          Peer(false, Unset, Reading, false, false, 0, false, 0, 0, [], None, 0), [], [])
  }

  function Node(s: State, master: bool): Peer { if master then s.m else s.r }

  /** The channel a node reads. */
  function Inbox(s: State, master: bool): seq<Msg> { if master then s.toM else s.toR }

  function SetNode(s: State, master: bool, p: Peer): State { if master then s.(m := p) else s.(r := p) }

  function SetInbox(s: State, master: bool, c: seq<Msg>): State { if master then s.(toM := c) else s.(toR := c) }

  predicate Running(p: Peer) { p.phase in {Reading, Writing, Draining} }

  function Step(file: seq<Byte>, s: State, e: Event): State {
    var p := Node(s, e.master);
    var c := Inbox(s, e.master);
    match e
    case Read(w) =>
      if p.phase == Reading && c != [] then SetInbox(SetNode(s, w, OnReadable(p, c[0])), w, c[1..]) else s
    case Discard(w) =>
      if p.phase == Reading && c != [] then SetInbox(SetNode(s, w, OnDiscard(p)), w, c[1..]) else s
    case Write(w) =>
      if p.phase == Writing then
        var (q, out) := OnWritable(p, file);
        var s1 := SetNode(s, w, q);
        if out.Some? then SetInbox(s1, !w, Inbox(s1, !w) + [out.value]) else s1
      else s
    case Written(w) => if p.phase == Draining && p.owed then SetNode(s, w, OnAllWritten(p)) else s
    case Timeout(w) => if p.timer && Running(p) then SetNode(s, w, OnTimeout(p)) else s
    case Lose(w, i) => if i < |c| then SetInbox(s, w, c[..i] + c[i + 1..]) else s
  }

  function Run(file: seq<Byte>, events: seq<Event>): State {
    if events == [] then Start()
    else Step(file, Run(file, events[..|events| - 1]), events[|events| - 1])
  }
}
