/**
 One node of the file transfer with the fields of the program: three callback pointers, a message
 buffer that is read and written in turn, a file buffer with its fill level, and 32-bit counters.
 Each handler takes the step of the protocol, on bytes.
 */
module PeerNode {
  import opened Types
  import opened PeerTransfer
  import opened PeerWire
  import P = PeerProofs

  const BUFFER_SIZE := 1400

  function Next32(n: nat): nat { if n == LIMIT - 1 then 0 else n + 1 }

  function Previous32(n: nat): nat { if n == 0 then LIMIT - 1 else n - 1 }

  /** The message buffer; a header was parsed from it, and `dataSize` bytes behind the header were the
      payload of the last message that had one. */
  class MessageBuffer {
    const bytes: array<Byte>
    var cmd: Byte
    var num: nat
    var dataSize: nat
    ghost var payload: seq<Byte>

    ghost predicate Sized()
      reads this
    {
      bytes.Length == BUFFER_SIZE && HEADER_SIZE + dataSize <= BUFFER_SIZE && num < LIMIT
    }

    ghost predicate Valid()
      reads this, bytes
    {
      Sized() && payload == bytes[HEADER_SIZE..HEADER_SIZE + dataSize]
    }

    constructor ()
      ensures Valid() && fresh(bytes) && dataSize == 0
    {
      bytes := new Byte[BUFFER_SIZE](_ => 0);
      cmd, num, dataSize, payload := 0, 0, 0, [];
    }

    /** neat_read into the buffer: what lies behind the message stays. */
    method Fill(b: seq<Byte>)
      requires Sized() && |b| <= BUFFER_SIZE
      modifies bytes
      ensures bytes[..|b|] == b && bytes[|b|..] == old(bytes[|b|..])
    {
      forall i | 0 <= i < |b| {
        bytes[i] := b[i];
      }
    }

    /** parsemsg of the first `size` bytes. */
    method Parse(size: nat) returns (ok: bool)
      requires Sized() && size <= BUFFER_SIZE
      modifies this`cmd, this`num, this`dataSize
      ensures Sized() && ok == (size >= HEADER_SIZE)
      ensures ok ==> cmd == bytes[0] && num == FromBe32(bytes[2..6])
      ensures dataSize == if size > HEADER_SIZE then size - HEADER_SIZE else old(dataSize)
    {
      if size < HEADER_SIZE {
        return false;
      }
      cmd := bytes[0];
      Be32Inverse(bytes[2..6]);
      num := FromBe32(bytes[2..6]);
      if size > HEADER_SIZE {
        dataSize := size - HEADER_SIZE;
      }
      return true;
    }

    /** Reading one message: the header fields and the payload are those of the decoded message. */
    method Receive(b: seq<Byte>) returns (ok: bool)
      requires Valid() && |b| <= BUFFER_SIZE
      modifies this, bytes
      ensures Valid() && ok == (|b| >= HEADER_SIZE)
      ensures ok ==> Msg(CmdOf(cmd), num, payload) == Decoded(b, old(payload))
    {
      Fill(b);
      ok := Parse(|b|);
      if ok {
        assert bytes[0] == b[0] && bytes[2..6] == b[2..6];
        assert |b| == HEADER_SIZE ==> forall i :: HEADER_SIZE <= i < BUFFER_SIZE ==> bytes[i] == old(bytes[i]);
      }
      payload := bytes[HEADER_SIZE..HEADER_SIZE + dataSize];
    }

    /** preparemsg: fails when the message does not fit. The copy of the payload takes as many more
        bytes from behind it as the header has, `beyond`; only the message itself is counted. A
        payload that fits without them and not with them is copied past the buffer: `overrun`. */
    method Prepare(code: Byte, size: nat, data: seq<Byte>, beyond: seq<Byte>)
      returns (actual: Option<nat>, overrun: bool)
      requires Valid() && size < LIMIT && |beyond| == HEADER_SIZE
      modifies this`payload, bytes
      ensures Valid()
      ensures actual.None? <==> HEADER_SIZE + |data| > BUFFER_SIZE
      ensures actual.None? ==> bytes[..] == old(bytes[..])
      ensures actual.Some? ==> actual.value == HEADER_SIZE + |data| && bytes[..actual.value] == Wire(code, size, data)
      ensures overrun <==> HEADER_SIZE + |data| <= BUFFER_SIZE < 2 * HEADER_SIZE + |data|
    {
      if BUFFER_SIZE < HEADER_SIZE + |data| {
        return None, false;
      }
      PutHeader(code, Be32(size));
      var n := HEADER_SIZE + |data|;
      overrun := false;
      if |data| > 0 {
        overrun := HEADER_SIZE + n > BUFFER_SIZE;
        var copied := data + beyond;
        PutPayload(copied);
        assert forall i :: 0 <= i < |data| ==> copied[i] == data[i];
      }
      assert forall i :: 0 <= i < |data| ==> bytes[HEADER_SIZE + i] == data[i];
      assert bytes[HEADER_SIZE..n] == data;
      assert bytes[..n] == bytes[..HEADER_SIZE] + bytes[HEADER_SIZE..n];
      payload := bytes[HEADER_SIZE..HEADER_SIZE + dataSize];
      return Some(n), overrun;
    }

    /** The part of a copy that lies in the buffer. */
    method PutPayload(copied: seq<Byte>)
      requires Sized()
      modifies bytes
      ensures bytes[..HEADER_SIZE] == old(bytes[..HEADER_SIZE])
      ensures forall i :: 0 <= i < |copied| && HEADER_SIZE + i < BUFFER_SIZE ==> bytes[HEADER_SIZE + i] == copied[i]
    {
      forall i | 0 <= i < |copied| && HEADER_SIZE + i < BUFFER_SIZE {
        bytes[HEADER_SIZE + i] := copied[i];
      }
    }

    method PutHeader(code: Byte, be: seq<Byte>)
      requires Sized() && |be| == 4
      modifies bytes
      ensures bytes[..HEADER_SIZE] == [code, 0] + be
    {
      bytes[0], bytes[1] := code, 0;
      bytes[2], bytes[3], bytes[4], bytes[5] := be[0], be[1], be[2], be[3];
    }
  }

  /** What the receiver collects. */
  class FileBuffer {
    const bytes: array<Byte>
    var size: nat
    ghost var contents: seq<Byte>

    ghost predicate Valid()
      reads this, bytes
    {
      bytes.Length == FILE_BUFFER && size <= FILE_BUFFER && contents == bytes[..size]
    }

    constructor ()
      ensures Valid() && fresh(bytes) && contents == []
    {
      bytes := new Byte[FILE_BUFFER](_ => 0);
      size, contents := 0, [];
    }

    /** append_data: refuses when the buffer would be full. */
    method Append(from: array<Byte>, at: nat, n: nat) returns (ok: bool)
      requires Valid() && at + n <= from.Length && from != bytes
      modifies this, bytes
      ensures Valid() && ok == (|old(contents)| + n < FILE_BUFFER)
      ensures contents == if ok then old(contents) + from[at..at + n] else old(contents)
    {
      ok := size + n < FILE_BUFFER;
      if ok {
        var end := size;
        forall i | 0 <= i < n {
          bytes[end + i] := from[at + i];
        }
        size, contents := size + n, contents + from[at..at + n];
        assert bytes[..end] == old(bytes[..end]);
        ghost var added, given := bytes[end..end + n], from[at..at + n];
        forall i | 0 <= i < n ensures added[i] == given[i] {
          assert bytes[end + i] == from[at + i];
        }
        assert added == given;
        assert bytes[..size] == bytes[..end] + bytes[end..end + n];
      }
    }
  }

  ghost function Answered(p: Peer): Peer { p.(timer := false, retries := 0, phase := Writing) }

  lemma AnswerStep(p: Peer, m: Msg)
    ensures OnReadable(p, m) == OnReadable(Answered(p), m)
  {
  }

  /** The protocol's step with segment numbers of 32 bits. It differs at the last number, which is
      followed by 0 and is the one before a count of 0. */
  ghost function OnReadable32(p: Peer, m: Msg): Peer {
    var q := OnReadable(p, m);
    if p.segment < LIMIT - 1 then q
    else if m.cmd == DATA && m.num == 0 then
      var z := OnReadable(p.(segment := 0), m);
      z.(segment := if z.phase == Exploded then p.segment else 0)
    else if m.cmd == ACK && p.segment == m.num && p.count == 0 then Answered(p).(cmd := COMPLETE)
    else if q.segment == LIMIT then q.(segment := 0)
    else q
  }

  lemma AnswerFirst(p: Peer, m: Msg)
    ensures OnReadable32(p, m) == OnReadable32(Answered(p), m)
  {
    AnswerStep(p, m);
    AnswerStep(p.(segment := 0), m);
    assert Answered(p.(segment := 0)) == Answered(p).(segment := 0);
  }

  /** With a file of less than 2^32 bytes no run gets to the last number, so both steps agree. */
  lemma NeverWraps(file: seq<Byte>, events: seq<Event>, master: bool, m: Msg)
    requires |file| < LIMIT
    ensures var p := PeerTransfer.Node(Run(file, events), master); OnReadable32(p, m) == OnReadable(p, m)
  {
    P.RunKeeps(file, events);
  }

  lemma WriteAnyPhase(p: Peer, file: seq<Byte>)
    ensures OnWritable(p, file) == OnWritable(p.(phase := Draining), file)
  {
  }

  /** The peer itself; `exited` and `owed` belong to its surroundings: the process, and the report of
      the library that a write has left. */
  class Node {
    const master: bool
    const file: seq<Byte>
    const name: seq<Byte>
    const buffer: MessageBuffer
    const store: FileBuffer
    var onReadable: bool
    var onWritable: bool
    var onAllWritten: bool
    var exited: bool
    var owed: bool
    var timer: bool
    var complete: bool
    var sendCmd: Byte
    var retries: nat
    var segment: nat
    var count: nat
    var saved: Option<seq<Byte>>
    ghost var accepts: nat

    ghost predicate Tidy()
      reads this
    {
      && |file| < LIMIT && |name| + 2 * HEADER_SIZE <= BUFFER_SIZE
      && segment < LIMIT && count < LIMIT
      && sendCmd == CodeOf(CmdOf(sendCmd))
      && !(onReadable && onWritable) && !(onReadable && onAllWritten) && !(onWritable && onAllWritten)
    }

    ghost predicate Valid()
      reads this, buffer, buffer.bytes, store, store.bytes
    {
      Tidy() && buffer.Valid() && store.Valid() && buffer.bytes != store.bytes
    }

    /** What the node waits for, as its callback pointers say. */
    ghost function Waits(): Phase
      reads this
    {
      if exited then Exploded
      else if onReadable then Reading
      else if onWritable then Writing
      else if onAllWritten then Draining
      else Done
    }

    ghost function View(): Peer
      reads this, store
    {
      Peer(master, CmdOf(sendCmd), Waits(), owed, timer, retries, complete,
        segment, count, store.contents, saved, accepts)
    }

    /** on_connected. */
    constructor (master: bool, file: seq<Byte>, name: seq<Byte>)
      requires |file| < LIMIT && |name| + 2 * HEADER_SIZE <= BUFFER_SIZE
      ensures Valid() && View() == if master then Start().m else Start().r
      ensures fresh(buffer) && fresh(buffer.bytes) && fresh(store) && fresh(store.bytes)
    {
      this.master, this.file, this.name := master, file, name;
      buffer := new MessageBuffer();
      store := new FileBuffer();
      onReadable, onWritable, onAllWritten := !master, master, false;
      exited, owed, timer, complete := false, false, false, false;
      sendCmd, retries, segment, count := if master then 2 else 0, 0, 0, 0;
      saved, accepts := None, 0;
    }

    method SetCallbacks(readable: bool, writable: bool, allWritten: bool)
      modifies this`onReadable, this`onWritable, this`onAllWritten
      ensures onReadable == readable && onWritable == writable && onAllWritten == allWritten
    {
      onReadable, onWritable, onAllWritten := readable, writable, allWritten;
    }

    /** The state in which a message is looked at: no timer runs, and the answer is written next. */
    ghost predicate Answering()
      reads this
    {
      Tidy() && onWritable && !exited && !timer && retries == 0
    }

    method TakeConnect(num: nat)
      requires Answering() && num < LIMIT
      modifies this`sendCmd, this`count, this`segment
      ensures Tidy() && forall data :: View() == OnReadable32(old(View()), Msg(CONNECT, num, data))
    {
      if !master {
        sendCmd, count, segment := 3, num, 0;
      } else {
        sendCmd := 254;
      }
    }

    /** ACK: the last segment completes the file. The difference wraps around for an empty file. */
    method TakeAck(num: nat)
      requires Answering()
      modifies this`sendCmd, this`segment, this`exited
      ensures Tidy()
      ensures forall data :: View() == OnReadable32(old(View()), Msg(ACK, num, data))
    {
      if segment == num {
        if segment == Previous32(count) {
          sendCmd := 6;
        } else {
          sendCmd, segment := 4, Next32(segment);
        }
      } else {
        exited := true;
      }
    }

    /** COMPLETE, CONNECTACK and what ends the process. */
    method TakeOther(cmd: Byte)
      requires Answering() && CmdOf(cmd) !in {CONNECT, ACK, DATA}
      modifies this`sendCmd, this`complete, this`exited
      ensures Tidy() && forall num, data :: View() == OnReadable32(old(View()), Msg(CmdOf(cmd), num, data))
    {
      if cmd == 6 {
        sendCmd, complete := 6, true;
      } else if cmd == 3 {
        sendCmd := 4;
      } else {
        exited := true;
      }
    }

    /** The first segment as long as no other came, or the next one. */
    ghost predicate Expects(num: nat)
      reads this
    {
      (num == 0 && segment == 0) || num == Next32(segment)
    }

    /** DATA: an expected segment is appended, any other refused. */
    method TakeData(num: nat)
      requires Valid() && Answering() && num < LIMIT
      modifies this`sendCmd, this`segment, this`accepts, this`exited, store, store.bytes
      ensures Valid()
      ensures View() == OnReadable32(old(View()), Msg(DATA, num, buffer.payload))
    {
      if (num == 0 && segment == 0) || num == Next32(segment) {
        AcceptSegment(num);
      } else {
        RefuseSegment(num);
      }
    }

    method AcceptSegment(num: nat)
      requires Valid() && Answering() && num < LIMIT && Expects(num)
      modifies this`sendCmd, this`segment, this`accepts, this`exited, store, store.bytes
      ensures Valid()
      ensures View() == OnReadable32(old(View()), Msg(DATA, num, buffer.payload))
    {
      var ok := store.Append(buffer.bytes, HEADER_SIZE, buffer.dataSize);
      TakeSegment(num, ok);
    }

    /** After the data was appended, or the buffer was full. */
    method TakeSegment(num: nat, ok: bool)
      requires Tidy()
      modifies this`sendCmd, this`segment, this`accepts, this`exited
      ensures Tidy() && exited == (old(exited) || !ok)
      ensures sendCmd == if ok then 1 else old(sendCmd)
      ensures accepts == old(accepts) + if ok && num == 0 then 1 else 0
      ensures segment == if ok && num == Next32(old(segment)) then num else old(segment)
    {
      if !ok {
        exited := true;
        return;
      }
      sendCmd := 1;
      if num == 0 {
        accepts := accepts + 1;
      }
      if num == Next32(segment) {
        segment := num;
      }
    }

    /** A segment that the receiver has is acknowledged again, any other is an error. */
    method RefuseSegment(num: nat)
      requires Tidy()
      modifies this`sendCmd
      ensures Tidy() && sendCmd == if num < segment then 1 else 254
    {
      sendCmd := if num < segment then 1 else 254;
    }

    /** The switch over the command in the header. */
    method Dispatch()
      requires Valid() && Answering()
      modifies this, store, store.bytes
      ensures Valid()
      ensures View() == OnReadable32(old(View()), Msg(CmdOf(buffer.cmd), buffer.num, buffer.payload))
    {
      var cmd, num := buffer.cmd, buffer.num;
      if cmd == 2 {
        TakeConnect(num);
      } else if cmd == 4 {
        TakeData(num);
      } else if cmd == 1 {
        TakeAck(num);
      } else {
        TakeOther(cmd);
      }
    }

    /** Any running timer is stopped; the answer will be written. */
    method StartAnswer()
      requires Tidy() && !exited
      modifies this`timer, this`retries, this`onReadable, this`onWritable, this`onAllWritten
      ensures Answering() && View() == Answered(old(View()))
    {
      timer, retries := false, 0;
      SetCallbacks(false, true, false);
    }

    /** on_readable with a message of at least one byte. */
    method ReadMessage(b: seq<Byte>)
      requires Valid() && onReadable && !exited && 0 < |b| <= BUFFER_SIZE
      modifies this, buffer, buffer.bytes, store, store.bytes
      ensures Valid()
      ensures View() == OnReadable32(old(View()), Decoded(b, old(buffer.payload)))
    {
      StartAnswer();
      var ok := buffer.Receive(b);
      AnswerFirst(old(View()), Decoded(b, old(buffer.payload)));
      if ok {
        Dispatch();
      } else {
        exited := true;
      }
    }

    /** What the switch of on_writable hands to preparemsg for anything but data. */
    method ChooseMessage() returns (code: Byte, num: nat, data: seq<Byte>)
      requires Tidy() && CmdOf(sendCmd) !in {Unset, DATA}
      modifies this`count, this`complete
      ensures Tidy() && num < LIMIT && |data| + 2 * HEADER_SIZE <= BUFFER_SIZE
      ensures var (q, out) := OnWritable(old(View()), file);
              && out.Some? && out.value.cmd != DATA && code == CodeOf(out.value.cmd) && num == out.value.num
              && View().(phase := Draining, owed := true) == q
    {
      code, data := sendCmd, [];
      if sendCmd == 2 {
        count := (|file| + SEGMENT_SIZE - 1) / SEGMENT_SIZE;
        num, data := count, name;
      } else if sendCmd == 6 || sendCmd == 3 {
        num := count;
      } else if sendCmd == 1 {
        num := segment;
      } else {
        num, complete := 0, true;
      }
    }

    /** The bytes that fseek and fread find for the current segment. */
    method ReadSegment() returns (data: seq<Byte>)
      ensures data == Segment(file, segment)
    {
      var at := segment * SEGMENT_SIZE;
      if at >= |file| {
        assert Segment(file, segment) == [];
        return [];
      }
      var end := if at + SEGMENT_SIZE < |file| then at + SEGMENT_SIZE else |file|;
      data := file[at..end];
    }

    /** The message is put into the buffer and handed to neat_write. */
    method Send(code: Byte, num: nat, data: seq<Byte>, beyond: seq<Byte>) returns (out: seq<Byte>)
      requires Valid() && num < LIMIT && |data| + 2 * HEADER_SIZE <= BUFFER_SIZE && |beyond| == HEADER_SIZE
      modifies this`owed, buffer`payload, buffer.bytes
      ensures Valid() && out == Wire(code, num, data) && View() == old(View()).(owed := true)
    {
      var n, _ := buffer.Prepare(code, num, data, beyond);
      owed := true;
      out := buffer.bytes[..n.value];
    }

    /** DATA: nothing is written at the end of the file. */
    method SendSegment(beyond: seq<Byte>) returns (out: Option<seq<Byte>>)
      requires Valid() && CmdOf(sendCmd) == DATA && |beyond| == HEADER_SIZE && onAllWritten && !exited
      modifies this`owed, buffer`payload, buffer.bytes
      ensures Valid()
      ensures var (q, msg) := OnWritable(old(View()), file);
              View() == q && (out.Some? <==> msg.Some?) && (out.Some? ==> Carries(out.value, msg.value))
    {
      var data := ReadSegment();
      if data == [] {
        return None;
      }
      var b := Send(4, segment, data, beyond);
      WireCarries(DATA, segment, data, Msg(DATA, segment, data));
      return Some(b);
    }

    method SendOther(beyond: seq<Byte>) returns (out: Option<seq<Byte>>)
      requires Valid() && CmdOf(sendCmd) !in {Unset, DATA} && |beyond| == HEADER_SIZE && onAllWritten && !exited
      modifies this`owed, this`count, this`complete, buffer`payload, buffer.bytes
      ensures Valid()
      ensures var (q, msg) := OnWritable(old(View()), file);
              View() == q && out.Some? && msg.Some? && Carries(out.value, msg.value)
    {
      ghost var msg := OnWritable(View(), file).1;
      var code, num, data := ChooseMessage();
      var b := Send(code, num, data, beyond);
      WireCarries(msg.value.cmd, num, data, msg.value);
      return Some(b);
    }

    /** on_writable: what goes to neat_write. `beyond` is what lies behind the payload in memory. */
    method WriteMessage(beyond: seq<Byte>) returns (out: Option<seq<Byte>>)
      requires Valid() && onWritable && !exited && |beyond| == HEADER_SIZE
      modifies this, buffer`payload, buffer.bytes
      ensures Valid()
      ensures var (q, msg) := OnWritable(old(View()), file);
              View() == q && (out.Some? <==> msg.Some?) && (out.Some? ==> Carries(out.value, msg.value))
    {
      SetCallbacks(false, false, true);
      WriteAnyPhase(old(View()), file);
      if sendCmd == 0 {
        exited := true;
        return None;
      }
      if sendCmd == 4 {
        out := SendSegment(beyond);
      } else {
        out := SendOther(beyond);
      }
    }

    /** on_all_written: a complete transfer is saved and closed. */
    method AllWritten()
      requires Valid() && onAllWritten && !exited && owed
      modifies this
      ensures Valid() && View() == OnAllWritten(old(View()))
    {
      owed := false;
      if complete {
        timer := false;
        SetCallbacks(false, false, false);
        saved := if master then None else Some(store.bytes[..store.size]);
        return;
      }
      SetCallbacks(true, false, false);
      timer := true;
    }

    /** on_timeout: the repeating timer asks for another write. */
    method TimerFired()
      requires Tidy() && timer && !exited
      modifies this`sendCmd, this`retries, this`onReadable, this`onWritable, this`onAllWritten
      ensures Tidy() && View() == OnTimeout(old(View()))
    {
      if retries > RETRY_LIMIT {
        sendCmd := 254;
      }
      retries := retries + 1;
      SetCallbacks(false, true, false);
    }
  }
}
