/**
 The read buffer in place: grown by doubling, filled behind its contents by the kernel, and
 drained from the front. Every method carries out the step of ReadSpec it models.
 */
module ReadBuffer {
  import opened Types
  import opened ReadSpec

  /** How much room a reception needs: a quarter of the socket buffer in units of 8 KiB. */
  function Threshold(readSize: nat): (t: nat)
    ensures t % 8192 == 0
    ensures readSize == 0 ==> t == 8192
    ensures readSize > 0 ==> readSize / 4 <= t < readSize / 4 + 8192
    ensures readSize == 0 || readSize >= 4 <==> t > 0
  {
    if readSize > 0 then (readSize / 4 + 8191) / 8192 * 8192 else 8192
  }

  class ReadFlow {
    const cfg: Config
    const readSize: nat
    var memory: array<Byte>
    var size: nat
    var complete: bool
    var eofSeen: bool
    ghost var model: State

    ghost predicate Valid()
      reads this, memory
    {
      && Threshold(readSize) > 0
      && size <= memory.Length
      && (memory.Length == 0 || memory.Length >= Threshold(readSize))
      && (cfg.datagrams && !complete ==> size == 0)
      && cfg.room == Threshold(readSize) && (cfg.datagrams ==> memory.Length == 0 || memory.Length == cfg.room)
      && model == State(memory[..size], complete, eofSeen, model.received, model.delivered)
    }

    /** A receive buffer of one to three bytes would ask for no room at all. */
    constructor (cfg: Config, readSize: nat)
      requires (readSize == 0 || readSize >= 4) && cfg.room == Threshold(readSize)
      ensures Valid() && model == Fresh() && fresh(memory)
      ensures this.cfg == cfg && this.readSize == readSize
    {
      this.cfg, this.readSize := cfg, readSize;
      memory := new Byte[0];
      size, complete, eofSeen, model := 0, false, false, Fresh();
    }

    /** resize_read_buffer: afterwards a reception has room, and calling it again does nothing. */
    method Resize()
      requires Valid() && !(cfg.datagrams && complete)
      modifies this`memory
      ensures Valid()
      ensures memory.Length - size >= Threshold(readSize)
      ensures memory == old(memory) || fresh(memory)
      ensures old(memory.Length - size) >= Threshold(readSize) ==> memory == old(memory)
    {
      var spaceThreshold := Threshold(readSize);
      if memory.Length - size < spaceThreshold {
        var needed := if memory.Length == 0 then spaceThreshold else 2 * memory.Length;
        var grown := new Byte[needed];
        forall i | 0 <= i < memory.Length {
          grown[i] := memory[i];
        }
        assert grown[..size] == memory[..size];
        memory := grown;
      }
    }

    /** The kernel copies as much of `pending` as fits behind the contents. */
    method CopyBehind(pending: seq<Byte>) returns (n: nat)
      requires Valid()
      modifies memory
      ensures Valid() && n <= |pending| && size + n <= memory.Length
      ensures n == |pending| || n == memory.Length - size
      ensures memory[size..size + n] == pending[..n]
      ensures memory[..size] == old(memory[..size])
    {
      var room := memory.Length - size;
      n := if |pending| < room then |pending| else room;
      var start := size;
      forall i | 0 <= i < n {
        memory[start + i] := pending[i];
      }
      ghost var copied := memory[start..start + n];
      forall i | 0 <= i < n ensures copied[i] == pending[i] {
        assert memory[start + i] == pending[i];
      }
      assert copied == pending[..n];
    }

    /** io_readable on SCTP data: end of record is seen only when all of the fragment fitted. */
    method ReceiveFragment(pending: seq<Byte>, ends: bool) returns (n: nat)
      requires Valid() && !cfg.datagrams && !complete && pending != []
      modifies this, memory
      ensures Valid() && (memory == old(memory) || fresh(memory))
      ensures 0 < n <= |pending| && (n == |pending| || n >= Threshold(readSize))
      ensures model == Step(cfg, old(model), Fragment(pending[..n], ends && n == |pending|))
    {
      Resize();
      n := CopyBehind(pending);
      assert memory[..size + n] == memory[..size] + pending[..n];
      size := size + n;
      if ends && n == |pending| {
        complete := true;
      }
      model := Append(model, pending[..n], complete);
    }

    /** io_readable on a notification: it is parsed behind the contents and never becomes part of them. */
    method ReceiveNotification(event: seq<Byte>, shutdown: bool)
      requires Valid() && !cfg.datagrams && !complete
      modifies this, memory
      ensures Valid() && (memory == old(memory) || fresh(memory))
      ensures model == Step(cfg, old(model), Notification(shutdown))
    {
      Resize();
      var _ := CopyBehind(event);
      if shutdown {
        eofSeen := true;
        complete := true;
      }
      model := Notify(model, shutdown);
    }

    method ReceiveEof()
      requires Valid() && !cfg.datagrams && !complete
      modifies this
      ensures Valid() && (memory == old(memory) || fresh(memory))
      ensures model == Step(cfg, old(model), Eof)
    {
      Resize();
      eofSeen := true;
      complete := true;
      model := EndOfFile(model);
    }

    /** io_readable on UDP: the datagram replaces the contents. The buffer is empty then and is never
        grown beyond the threshold, so what does not fit there is lost. */
    method ReceiveDatagram(pending: seq<Byte>) returns (n: nat)
      requires Valid() && cfg.datagrams && !complete
      modifies this, memory
      ensures Valid() && (memory == old(memory) || fresh(memory))
      ensures n == Fits(pending, Threshold(readSize))
      ensures model == Step(cfg, old(model), Datagram(pending))
    {
      Resize();
      n := CopyBehind(pending);
      assert memory[..n] == pending[..n];
      size := n;
      complete := n != 0;
      model := TakeDatagram(model, pending, cfg.room);
    }

    /** nt_read_from_lower_layer with its memcpy out and memmove down. */
    method Read(amt: nat) returns (code: Code, out: seq<Byte>)
      requires Valid()
      modifies this, memory
      ensures Valid() && memory == old(memory)
      ensures (model, code) == DoRead(cfg, old(model), amt)
      ensures code == Ok ==> model.delivered == old(model.delivered) + [out]
      ensures |out| <= amt
    {
      out := [];
      if cfg.preserve {
        if !complete {
          return WouldBlock, [];
        }
        if size > amt {
          return MessageTooBig, [];
        }
      } else if size == 0 {
        if eofSeen {
          eofSeen := false;
          model := model.(eofSeen := false, delivered := model.delivered + [[]]);
          return Ok, [];
        }
        return WouldBlock, [];
      }
      if size > amt {
        out := memory[..amt];
        assert out == model.buffer[..amt];
        MoveDown(amt);
        model := DoRead(cfg, model, amt).0;
      } else {
        out := memory[..size];
        size := 0;
        complete := false;
        model := DoRead(cfg, model, amt).0;
      }
      return Ok, out;
    }

    method MoveDown(k: nat)
      requires k <= size <= memory.Length
      modifies this`size, memory
      ensures size == old(size) - k && memory[..size] == old(memory[k..size])
    {
      var left := size - k;
      forall i | 0 <= i < left {
        memory[i] := memory[k + i];
      }
      size := left;
    }
  }
}
