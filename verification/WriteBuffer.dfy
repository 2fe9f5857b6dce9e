/**
 The write path in place: buffers with an offset, a size and an allocation, appended to,
 compacted and reallocated, and a flow whose methods carry out exactly the steps of WriteSpec.
 */
module WriteBuffer {
  import opened Types
  import opened WriteSpec

  /** Allocations grow in steps of 8 KiB. */
  function RoundUp(n: nat): (r: nat)
    ensures n <= r < n + 8192 && r % 8192 == 0
  {
    (n + 8191) / 8192 * 8192
  }

  class BufferedMessage {
    var buffered: array<Byte>
    var offset: nat
    var size: nat
    const sid: nat
    const unordered: bool

    ghost predicate Valid()
      reads this
    {
      offset + size <= buffered.Length
    }

    ghost function Data(): seq<Byte>
      requires Valid()
      reads this, buffered
    {
      buffered[offset..offset + size]
    }

    constructor (sid: nat, unordered: bool)
      ensures Valid() && Data() == [] && fresh(buffered)
      ensures this.sid == sid && this.unordered == unordered
    {
      buffered := new Byte[0];
      offset, size := 0, 0;
      this.sid, this.unordered := sid, unordered;
    }

    /** Makes room for `extra` bytes by reallocating, which drops the bytes already sent. */
    method Grow(extra: nat)
      requires Valid() && offset + size + extra > buffered.Length
      modifies this`buffered, this`offset
      ensures Valid() && Data() == old(Data()) && offset == 0
      ensures fresh(buffered) && buffered.Length == RoundUp(size + extra)
    {
      var grown := new Byte[RoundUp(size + extra)];
      if offset == 0 {
        forall i | 0 <= i < buffered.Length {
          grown[i] := buffered[i];
        }
      } else {
        forall i | 0 <= i < size {
          grown[i] := buffered[offset + i];
        }
      }
      buffered, offset := grown, 0;
    }

    /** Appends in place when there is room, in a grown buffer otherwise. */
    method Append(bytes: seq<Byte>)
      requires Valid()
      modifies this, buffered
      ensures Valid() && Data() == old(Data()) + bytes
      ensures buffered == old(buffered) || fresh(buffered)
    {
      if offset + size + |bytes| > buffered.Length {
        Grow(|bytes|);
      }
      CopyIn(bytes);
    }

    /** The memcpy behind the unsent bytes. */
    method CopyIn(bytes: seq<Byte>)
      requires Valid() && offset + size + |bytes| <= buffered.Length
      modifies this`size, buffered
      ensures Valid() && Data() == old(Data()) + bytes
    {
      var end := offset + size;
      forall i | 0 <= i < |bytes| {
        buffered[end + i] := bytes[i];
      }
      size := size + |bytes|;
      assert buffered[offset..end] == old(Data());
      assert buffered[end..end + |bytes|] == bytes;
    }

    /** The first `k` unsent bytes. */
    method FirstBytes(k: nat) returns (bytes: seq<Byte>)
      requires Valid() && k <= size
      ensures bytes == Data()[..k]
    {
      bytes := buffered[offset..offset + k];
      forall i | 0 <= i < k ensures bytes[i] == Data()[i] {
        assert bytes[i] == buffered[offset + i];
      }
    }

    /** The kernel took the first `k` unsent bytes. */
    method Consume(k: nat)
      requires Valid() && k <= size
      modifies this`offset, this`size
      ensures Valid() && Data() == old(Data())[k..]
    {
      offset, size := offset + k, size - k;
    }
  }

  /** A queued buffer holds the unsent bytes of its message inside its allocation. */
  ghost predicate Holds(m: BufferedMessage, v: Message)
    reads m, m.buffered
  {
    m.Valid() && m.size > 0 && v == Message(m.sid, m.unordered, m.Data())
  }

  ghost predicate Apart(a: BufferedMessage, b: BufferedMessage)
    reads a, b
  {
    a != b && a.buffered != b.buffered
  }

  method NewMessage(m: Message) returns (msg: BufferedMessage)
    requires m.data != []
    ensures fresh(msg) && fresh(msg.buffered) && Holds(msg, m)
  {
    msg := new BufferedMessage(m.sid, m.unordered);
    msg.Append(m.data);
    assert [] + m.data == m.data;
  }

  lemma HeadReplaced(q: seq<Message>, head: Message)
    requires q != []
    ensures q[0 := head] == [head] + q[1..]
  {
  }

  /** The TAILQ of unsent messages; `contents` is what its buffers hold. */
  class MessageQueue {
    var buffers: seq<BufferedMessage>
    ghost var contents: seq<Message>
    ghost var Repr: set<object>

    ghost predicate Valid()
      reads this, Repr
    {
      && this in Repr
      && (forall i :: 0 <= i < |buffers| ==> buffers[i] in Repr && buffers[i].buffered in Repr)
      && (forall i, j :: 0 <= i < j < |buffers| ==> Apart(buffers[i], buffers[j]))
      && |contents| == |buffers|
      && (forall i :: 0 <= i < |buffers| ==> Holds(buffers[i], contents[i]))
    }

    constructor ()
      ensures Valid() && fresh(Repr) && contents == []
    {
      buffers, contents, Repr := [], [], {this};
    }

    method Push(m: Message)
      requires Valid() && m.data != []
      modifies this
      ensures Valid() && fresh(Repr - old(Repr)) && contents == old(contents) + [m]
    {
      var msg := NewMessage(m);
      buffers, contents, Repr := buffers + [msg], contents + [m], Repr + {msg, msg.buffered};
    }

    /** A TCP flow keeps all its unsent bytes in one buffer. */
    method ExtendOnly(bytes: seq<Byte>)
      requires Valid() && |contents| == 1
      modifies Repr
      ensures Valid() && fresh(Repr - old(Repr))
      ensures contents == [old(contents)[0].(data := old(contents)[0].data + bytes)]
    {
      var msg := buffers[0];
      msg.Append(bytes);
      contents := [contents[0].(data := contents[0].data + bytes)];
      Repr := Repr + {msg.buffered};
    }

    /** Moves the offset of the first buffer; the others hold what they held. */
    method ConsumeFirst(k: nat, ghost head: Message)
      requires Valid() && contents != [] && k < |contents[0].data|
      requires head == contents[0].(data := contents[0].data[k..])
      modifies buffers[0]
      ensures buffers[0].buffered == old(buffers[0].buffered) && Holds(buffers[0], head)
      ensures forall i :: 1 <= i < |buffers| ==> Holds(buffers[i], contents[i])
    {
      assert Holds(buffers[0], contents[0]);
      forall i | 1 <= i < |buffers| ensures buffers[i] != buffers[0] {
        assert Apart(buffers[0], buffers[i]);
      }
      buffers[0].Consume(k);
    }

    /** The kernel took `k` bytes of the first message, which stays queued if some are left. */
    method Consume(k: nat)
      requires Valid() && contents != [] && k < |contents[0].data|
      modifies Repr
      ensures Valid() && Repr == old(Repr)
      ensures contents == [old(contents)[0].(data := old(contents)[0].data[k..])] + old(contents)[1..]
    {
      ghost var head := contents[0].(data := contents[0].data[k..]);
      ConsumeFirst(k, head);
      HeadReplaced(contents, head);
      contents := contents[0 := head];
    }

    method Pop()
      requires Valid() && contents != []
      modifies this
      ensures Valid() && Repr == old(Repr) && contents == old(contents)[1..]
    {
      buffers, contents := buffers[1..], contents[1..];
    }

    /** nt_write_fillbuffer. */
    method FillBuffer(sock: Socket, m: Message)
      requires Valid() && (sock.stack == TCP ==> |contents| <= 1)
      modifies Repr
      ensures Valid() && fresh(Repr - old(Repr))
      ensures contents == Fill(sock, old(contents), m)
    {
      if m.data == [] {
        return;
      }
      if sock.stack != TCP || |buffers| == 0 {
        Push(m);
      } else {
        ExtendOnly(m.data);
      }
    }

    /** What one accepted sendmsg of a flush takes out of the first buffer. */
    method TakeFront(sock: Socket, n: nat) returns (seg: Segment, k: nat)
      requires Valid() && contents != [] && Live(contents)
      ensures seg == SendHead(sock, contents, n).0
      ensures k == Taken(n, sock.Offer(buffers[0].size))
    {
      var msg := buffers[0];
      assert Holds(msg, contents[0]);
      var len := sock.Offer(msg.size);
      k := Taken(n, len);
      var bytes := msg.FirstBytes(k);
      var eor := sock.stack == SCTP && sock.explicitEor && len == msg.size && k == len;
      if sock.stack == SCTP {
        seg := Segment(msg.sid, msg.unordered, bytes, eor);
      } else {
        seg := Segment(0, false, bytes, eor);
      }
    }

    /** One accepted sendmsg of a flush; a finished message is unlinked. */
    method SendFront(sock: Socket, n: nat) returns (seg: Segment)
      requires Valid() && contents != [] && Live(contents)
      modifies Repr
      ensures Valid() && Repr == old(Repr)
      ensures (seg, contents) == SendHead(sock, old(contents), n)
    {
      var size, k := buffers[0].size, 0;
      seg, k := TakeFront(sock, n);
      if k == size {
        Pop();
      } else {
        Consume(k);
      }
    }
  }

  class Flow {
    const sock: Socket
    const queue: MessageQueue
    var draining: bool
    var closing: bool
    var notify: bool
    var onWritable: bool
    var onAllWritten: bool
    var history: seq<Entry>
    ghost var model: State

    ghost predicate Valid()
      reads this, queue, queue.Repr
    {
      && sock.Valid()
      && queue.Valid() && this !in queue.Repr
      && (sock.stack == TCP ==> |queue.contents| <= 1)
      && Live(queue.contents)
      && model == State(queue.contents, draining, closing, notify, onWritable, onAllWritten, history)
    }

    constructor (sock: Socket)
      requires sock.Valid()
      ensures Valid() && fresh(queue.Repr) && this.sock == sock && model == Fresh()
    {
      this.sock := sock;
      queue := new MessageQueue();
      draining, closing, notify, onWritable, onAllWritten, history := false, false, false, false, false, [];
      model := Fresh();
    }

    /** A call of neat_write asks for a drain report. */
    method Enter()
      requires Valid()
      modifies this`notify, this`history, this`model
      ensures Valid() && model == Begin(old(model))
    {
      notify, history := true, history + [Called];
      model := Begin(model);
    }

    /** neat_write with the argument checks of nt_write_to_lower_layer; `op.reply` is the kernel's
        answer to the direct send. */
    method Write(op: Op) returns (code: Code)
      requires Valid() && op.Write?
      modifies this, queue.Repr
      ensures Valid() && fresh(queue.Repr - old(queue.Repr))
      ensures (model, code) == DoWrite(sock, old(model), op)
    {
      Enter();
      if op.hasSid && op.sid < 0 {
        return BadArgument;
      }
      var sid := StreamId(sock, op.hasSid, op.sid);
      if sock.Atomic() && sock.writeSize > 0 && |op.data| > sock.writeSize {
        return MessageTooBig;
      }
      code := SendAndBuffer(Message(sid, op.unordered, op.data), op.reply);
    }

    /** The direct send of an empty queue, then the buffering of what is left. */
    method SendAndBuffer(m: Message, reply: Reply) returns (code: Code)
      requires Valid()
      modifies this, queue.Repr
      ensures Valid() && fresh(queue.Repr - old(queue.Repr))
      ensures (model, code) == Deliver(sock, old(model), m, reply)
    {
      var rest := m;
      if |queue.buffers| == 0 && |m.data| > 0 {
        match reply {
          case Failed(noEntry) =>
            closing := closing || noEntry;
            model := model.(closing := closing);
            return IoError;
          case WouldBlock =>
          case Accepted(n) =>
            var len := sock.Offer(|m.data|);
            var k := Taken(n, len);
            history := history + [Sent(Emit(sock, m, len, k))];
            model := model.(history := history);
            rest := m.(data := m.data[k..]);
        }
      }
      BufferRest(rest, m);
      return Ok;
    }

    /** nt_write_fillbuffer, the drain flag and the successful return. */
    method BufferRest(rest: Message, whole: Message)
      requires Valid()
      modifies this, queue.Repr
      ensures Valid() && fresh(queue.Repr - old(queue.Repr))
      ensures model == Buffer(sock, old(model), rest, whole)
    {
      queue.FillBuffer(sock, rest);
      draining := |queue.buffers| != 0;
      history := history + [Wrote(whole)];
      model := Buffer(sock, model, rest, whole);
    }

    /** neat_shutdown. */
    method ShutDown()
      requires Valid()
      modifies this`closing, this`history, this`model
      ensures Valid() && model == DoShutdown(old(model))
    {
      closing := true;
      if !draining {
        history := history + [Shutdown];
      }
      model := DoShutdown(model);
    }

    method SendNext(n: nat)
      requires Valid() && model.queue != []
      modifies this`history, this`model, queue.Repr
      ensures Valid() && queue.Repr == old(queue.Repr)
      ensures Live(old(model.queue)) && model == SendOne(sock, old(model), n)
    {
      var seg := queue.SendFront(sock, n);
      history := history + [Sent(seg)];
      model := SendOne(sock, model, n);
    }

    /** nt_write_flush: `replies` are the kernel's answers, one per call. Unlinking a finished
        message and moving on to the next is one branch of a single loop. */
    method FlushQueue(replies: seq<Reply>) returns (code: Code)
      requires Valid()
      modifies this, queue.Repr
      ensures Valid() && queue.Repr == old(queue.Repr)
      ensures Live(old(model.queue)) && (model, code) == DoFlush(sock, old(model), replies)
    {
      if |queue.buffers| == 0 {
        return Ok;
      }
      var used := 0;
      while |queue.buffers| != 0
        invariant Valid() && queue.Repr == old(queue.Repr)
        invariant used <= |replies|
        invariant FlushAll(sock, model, replies[used..]) == FlushAll(sock, old(model), replies)
        decreases |replies| - used
      {
        if used == |replies| {
          return Blocked;
        }
        match replies[used] {
          case WouldBlock => return Blocked;
          case Failed(_) => return IoError;
          case Accepted(n) =>
            SendNext(n);
            assert replies[used..][1..] == replies[used + 1..];
        }
        used := used + 1;
      }
      draining := false;
      model := model.(draining := false);
      return Ok;
    }

    /** The application's own call of neat_shutdown. */
    method CloseCall()
      requires Valid()
      modifies this`closing, this`history, this`model
      ensures Valid() && model == DoOp(sock, old(model), Close)
    {
      history := history + [CloseCalled];
      model := model.(history := history);
      ShutDown();
    }

    method RunOp(op: Op)
      requires Valid()
      modifies this, queue.Repr
      ensures Valid() && fresh(queue.Repr - old(queue.Repr))
      ensures model == DoOp(sock, old(model), op)
    {
      match op {
        case Write(_, _, _, _, _) => var _ := Write(op);
        case Close => CloseCall();
        case SetOps(w, a) =>
          onWritable, onAllWritten := w, a;
          model := model.(onWritable := w, onAllWritten := a);
      }
    }

    /** What the application does inside one of its callbacks. */
    method RunOps(ops: seq<Op>)
      requires Valid()
      modifies this, queue.Repr
      ensures Valid() && fresh(queue.Repr - old(queue.Repr))
      ensures model == DoOps(sock, old(model), ops)
    {
      var i := 0;
      while i < |ops|
        invariant i <= |ops|
        invariant Valid() && fresh(queue.Repr - old(queue.Repr))
        invariant DoOps(sock, model, ops[i..]) == DoOps(sock, old(model), ops)
      {
        RunOp(ops[i]);
        assert ops[i..][1..] == ops[i + 1..];
        i := i + 1;
      }
    }

    /** io_writable and io_all_written. */
    method OnWritable(replies: seq<Reply>, inWritable: seq<Op>, inAllWritten: seq<Op>)
      requires Valid()
      modifies this, queue.Repr
      ensures Valid() && fresh(queue.Repr - old(queue.Repr))
      ensures Live(old(model.queue)) && model == DoWritable(sock, old(model), replies, inWritable, inAllWritten)
    {
      if draining {
        var code := FlushQueue(replies);
        if code != Ok && code != Blocked {
          return;
        }
      } else if onWritable {
        RunOps(inWritable);
      }
      FinishWritable(inAllWritten);
    }

    /** The deferred shutdown or the report of the drain. */
    method FinishWritable(inAllWritten: seq<Op>)
      requires Valid()
      modifies this, queue.Repr
      ensures Valid() && fresh(queue.Repr - old(queue.Repr))
      ensures model == AfterWritable(sock, old(model), inAllWritten)
    {
      if !draining {
        if closing {
          ShutDown();
        } else if onAllWritten && notify {
          notify, history := false, history + [AllWritten];
          model := model.(notify := false, history := history);
          RunOps(inAllWritten);
        }
      }
    }
  }
}
