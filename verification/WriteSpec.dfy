/**
 The buffered write path as a deterministic machine driven by the application and by
 scripted kernel answers: what one neat_write, one flush and one writable event do to the
 queue of unsent messages, and what they leave in the history of calls and kernel sends.
 */
module WriteSpec {
  import opened Types

  datatype Stack = TCP | MPTCP | SCTP | UDP | UDPLite

  /** The socket fields the write path reads; constant while a flow is connected. */
  datatype Socket = Socket(
    stack: Stack,
    explicitEor: bool,
    writeLimit: nat,
    writeSize: nat,
    streamsAvailable: nat,
    multistreamId: nat)
  {
    /** A multistream id is a 16-bit stream number and is handed out on SCTP only. */
    ghost predicate Valid() {
      multistreamId < 0x1_0000 && (multistreamId != 0 ==> stack == SCTP)
    }

    predicate Framed() { stack == SCTP && explicitEor }

    /** Whether a message has to fit the send buffer in one piece. */
    predicate Atomic() {
      match stack
      case TCP => false
      case MPTCP => false
      case SCTP => !explicitEor
      case UDP => true
      case UDPLite => true
    }

    /** How much of `size` pending bytes is offered to the kernel in one call. */
    function Offer(size: nat): (len: nat)
      ensures len <= size && (size > 0 ==> len > 0)
      ensures len < size ==> Framed() && len == writeLimit
      ensures Framed() && writeLimit > 0 ==> len <= writeLimit
    {
      if stack == SCTP && explicitEor && writeLimit > 0 && size > writeLimit then writeLimit else size
    }
  }

  /** One answer of sendmsg. An accepting kernel takes at least one byte and at most the offer. */
  datatype Reply = WouldBlock | Failed(noEntry: bool) | Accepted(n: nat)

  function Taken(n: nat, len: nat): (k: nat)
    requires len > 0
    ensures 1 <= k <= len
    ensures 1 <= n <= len ==> k == n
    ensures n > len ==> k == len
  {
    if n == 0 then 1 else if n > len then len else n
  }

  datatype Message = Message(sid: nat, unordered: bool, data: seq<Byte>)

  /** One accepted sendmsg: the ancillary stream data, the bytes taken, and whether EOR took effect. */
  datatype Segment = Segment(sid: nat, unordered: bool, data: seq<Byte>, eor: bool)

  datatype Code = Ok | BadArgument | MessageTooBig | IoError | Blocked

  datatype Entry =
    | Called
    | Wrote(msg: Message)
    | Sent(seg: Segment)
    | CloseCalled
    | Shutdown
    | AllWritten

  datatype State = State(
    queue: seq<Message>,
    draining: bool,
    closing: bool,
    notify: bool,
    onWritable: bool,
    onAllWritten: bool,
    history: seq<Entry>)

  /** What an application may do, from outside or from inside one of its callbacks. */
  datatype Op =
    | Write(hasSid: bool, sid: int, unordered: bool, data: seq<Byte>, reply: Reply)
    | Close
    | SetOps(writable: bool, allWritten: bool)

  datatype Event =
    | App(op: Op)
    | Writable(replies: seq<Reply>, inWritable: seq<Op>, inAllWritten: seq<Op>)

  function Fresh(): State {
    State([], false, false, false, false, false, [])
  }

  // ---------------------------------------------------------------- one write

  /** The stream id a write uses: rejected, ignored, overridden, then cut to 16 bits. */
  function StreamId(sock: Socket, hasSid: bool, sid: int): (r: nat)
    requires !(hasSid && sid < 0)
    ensures r < 0x1_0000
    ensures 0 < sock.multistreamId < 0x1_0000 ==> r == sock.multistreamId
    ensures sock.multistreamId == 0 && (!hasSid || sock.stack != SCTP || sock.streamsAvailable == 1) ==> r == 0
    ensures sock.multistreamId == 0 && hasSid && sock.stack == SCTP && sock.streamsAvailable != 1 ==>
              if sid < 0x1_0000 then r == sid else r == sid % 0x1_0000
    ensures sock.Valid() && sock.stack != SCTP ==> r == 0
  {
    var chosen :=
      if !hasSid then 0
      else if sock.streamsAvailable == 1 && sid != 0 then 0
      else if sock.stack != SCTP then 0
      else sid;
    (if sock.multistreamId != 0 then sock.multistreamId else chosen) % 0x1_0000
  }

  /** The record of `k` bytes of `m` leaving in one call that offered `len`. */
  function Emit(sock: Socket, m: Message, len: nat, k: nat): Segment
    requires k <= len <= |m.data|
  {
    var flag := sock.Framed() && len == |m.data|;
    Segment(if sock.stack == SCTP then m.sid else 0, sock.stack == SCTP && m.unordered,
            m.data[..k], flag && k == len)
  }

  /** nt_write_fillbuffer: what is left over joins the last TCP buffer or becomes a new one. */
  function Fill(sock: Socket, queue: seq<Message>, rest: Message): seq<Message> {
    if rest.data == [] then queue
    else if sock.stack != TCP || queue == [] then queue + [rest]
    else
      var last := |queue| - 1;
      queue[last := queue[last].(data := queue[last].data + rest.data)]
  }

  /** The tail of a successful write: buffer the rest, set the drain flag, report success. */
  function Buffer(sock: Socket, s: State, rest: Message, whole: Message): State {
    var q := Fill(sock, s.queue, rest);
    s.(queue := q, draining := q != [], history := s.history + [Wrote(whole)])
  }

  /** A first send that takes part of the message; the rest is buffered. */
  function Direct(sock: Socket, s: State, m: Message, n: nat): State
    requires m.data != []
  {
    var len := sock.Offer(|m.data|);
    var k := Taken(n, len);
    Buffer(sock, s.(history := s.history + [Sent(Emit(sock, m, len, k))]), m.(data := m.data[k..]), m)
  }

  /** Writes refused before anything is sent. */
  function Rejected(sock: Socket, op: Op): (r: Option<Code>)
    requires op.Write?
    ensures r.None? ==> !(op.hasSid && op.sid < 0)
  {
    if op.hasSid && op.sid < 0 then Some(BadArgument)
    else if sock.Atomic() && sock.writeSize > 0 && |op.data| > sock.writeSize then Some(MessageTooBig)
    else None
  }

  /** Every write call, refused or not, asks for a drain report. */
  function Begin(s: State): State {
    s.(notify := true, history := s.history + [Called])
  }

  function Built(sock: Socket, op: Op): Message
    requires op.Write? && Rejected(sock, op).None?
  {
    Message(StreamId(sock, op.hasSid, op.sid), op.unordered, op.data)
  }

  /** The part of nt_write_to_lower_layer behind the argument checks. */
  function Deliver(sock: Socket, s: State, m: Message, reply: Reply): (r: (State, Code)) {
    if s.queue == [] && m.data != [] then
      match reply
      case Failed(noEntry) => (s.(closing := s.closing || noEntry), IoError)
      case WouldBlock => (Buffer(sock, s, m, m), Ok)
      case Accepted(n) => (Direct(sock, s, m, n), Ok)
    else (Buffer(sock, s, m, m), Ok)
  }

  /** neat_write followed by nt_write_to_lower_layer. */
  function DoWrite(sock: Socket, s: State, op: Op): (r: (State, Code))
    requires op.Write?
  {
    var refused := Rejected(sock, op);
    if refused.Some? then (Begin(s), refused.value)
    else Deliver(sock, Begin(s), Built(sock, op), op.reply)
  }

  /** neat_shutdown: deferred while data is queued. */
  function DoShutdown(s: State): State {
    var s1 := s.(closing := true);
    if s1.draining then s1 else s1.(history := s1.history + [Shutdown])
  }

  function DoOp(sock: Socket, s: State, op: Op): State {
    match op
    case Write(_, _, _, _, _) => DoWrite(sock, s, op).0
    case Close => DoShutdown(s.(history := s.history + [CloseCalled]))
    case SetOps(w, a) => s.(onWritable := w, onAllWritten := a)
  }

  function DoOps(sock: Socket, s: State, ops: seq<Op>): State
    decreases |ops|
  {
    if ops == [] then s else DoOps(sock, DoOp(sock, s, ops[0]), ops[1..])
  }

  // ---------------------------------------------------------------- one flush

  /** Unsent data is never empty, so the head always has something to offer. */
  ghost predicate Live(queue: seq<Message>) {
    forall i :: 0 <= i < |queue| ==> queue[i].data != []
  }

  /** The kernel takes part of the head: what it took, and what stays queued. */
  function SendHead(sock: Socket, queue: seq<Message>, n: nat): (r: (Segment, seq<Message>))
    requires queue != [] && Live(queue)
    ensures Live(r.1)
  {
    var m := queue[0];
    var len := sock.Offer(|m.data|);
    var k := Taken(n, len);
    var rest := m.data[k..];
    (Emit(sock, m, len, k),
     if rest == [] then queue[1..] else [m.(data := rest)] + queue[1..])
  }

  function SendOne(sock: Socket, s: State, n: nat): (r: State)
    requires s.queue != [] && Live(s.queue)
    ensures Live(r.queue)
  {
    var (seg, queue') := SendHead(sock, s.queue, n);
    s.(queue := queue', history := s.history + [Sent(seg)])
  }

  /** The loop of nt_write_flush against the answers the kernel will give; an exhausted script blocks. */
  function FlushAll(sock: Socket, s: State, replies: seq<Reply>): (r: (State, Code))
    requires Live(s.queue)
    ensures Live(r.0.queue)
    ensures r.1 == Ok <==> r.0.queue == []
    ensures r.0.draining == (s.draining && r.1 != Ok)
    decreases |replies|
  {
    if s.queue == [] then (s.(draining := false), Ok)
    else if replies == [] then (s, Blocked)
    else match replies[0]
      case WouldBlock => (s, Blocked)
      case Failed(_) => (s, IoError)
      case Accepted(n) => FlushAll(sock, SendOne(sock, s, n), replies[1..])
  }

  function DoFlush(sock: Socket, s: State, replies: seq<Reply>): (r: (State, Code))
    requires Live(s.queue)
  {
    if s.queue == [] then (s, Ok) else FlushAll(sock, s, replies)
  }

  /** The end of io_writable: a flow that is not draining shuts down or reports the drain. */
  function AfterWritable(sock: Socket, s: State, inAllWritten: seq<Op>): State {
    if s.draining then s
    else if s.closing then DoShutdown(s)
    else if s.onAllWritten && s.notify then
      DoOps(sock, s.(notify := false, history := s.history + [AllWritten]), inAllWritten)
    else s
  }

  /** io_writable. */
  function DoWritable(sock: Socket, s: State, replies: seq<Reply>, inWritable: seq<Op>, inAllWritten: seq<Op>): State
    requires Live(s.queue)
  {
    if s.draining then
      var (s1, code) := DoFlush(sock, s, replies);
      if code == IoError then s1 else AfterWritable(sock, s1, inAllWritten)
    else if s.onWritable then
      AfterWritable(sock, DoOps(sock, s, inWritable), inAllWritten)
    else AfterWritable(sock, s, inAllWritten)
  }

  function Step(sock: Socket, s: State, e: Event): State
    requires Live(s.queue)
  {
    match e
    case App(op) => DoOp(sock, s, op)
    case Writable(replies, w, a) => DoWritable(sock, s, replies, w, a)
  }
}
