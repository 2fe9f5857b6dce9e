/**
 The read path of datagram and SCTP flows: fragments, datagrams, end-of-file and notifications
 fill a reassembly buffer, reads of any size drain it. The state records what came in and what
 was handed out, so that every run can be checked against both.
 */
module ReadSpec {
  import opened Types

  /** `datagrams` holds for UDP and UDP-Lite, otherwise the flow is SCTP; `preserve` asks for
      message boundaries; `room` is what the buffer has for a datagram. */
  datatype Config = Config(datagrams: bool, preserve: bool, room: nat)

  /** What came in: data, of which the kernel handed over `bytes` and threw away `lost`, or a mark
      that ends whatever was being reassembled. */
  datatype Input = Data(bytes: seq<Byte>, last: bool, lost: seq<Byte>) | Mark

  datatype Code = Ok | WouldBlock | MessageTooBig

  datatype State = State(
    buffer: seq<Byte>,
    complete: bool,
    eofSeen: bool,
    received: seq<Input>,
    delivered: seq<seq<Byte>>)

  datatype Event =
    | Fragment(bytes: seq<Byte>, eor: bool)
    | Eof
    | Notification(shutdown: bool)
    | Datagram(bytes: seq<Byte>)
    | Read(amt: nat)

  function Fresh(): State { State([], false, false, [], []) }

  /** Which receptions io_readable performs: none while a complete message waits. */
  ghost predicate Enabled(cfg: Config, s: State, e: Event) {
    match e
    case Fragment(bytes, _) => !cfg.datagrams && !s.complete && bytes != []
    case Eof => !cfg.datagrams && !s.complete
    case Notification(_) => !cfg.datagrams && !s.complete
    case Datagram(_) => cfg.datagrams && cfg.room > 0 && !s.complete
    case Read(_) => true
  }

  function Append(s: State, bytes: seq<Byte>, eor: bool): State {
    s.(buffer := s.buffer + bytes, complete := s.complete || eor, received := s.received + [Data(bytes, eor, [])])
  }

  /** A shutdown event ends the message being reassembled; other notifications change nothing. */
  function Notify(s: State, shutdown: bool): State {
    if shutdown then s.(eofSeen := true, complete := true, received := s.received + [Mark]) else s
  }

  function EndOfFile(s: State): State {
    s.(eofSeen := true, complete := true, received := s.received + [Mark])
  }

  /** What recvfrom hands over of a datagram; the rest of it is gone. */
  function Fits(bytes: seq<Byte>, room: nat): (n: nat)
    ensures n <= |bytes| && n <= room && (n == |bytes| || n == room)
  {
    if |bytes| <= room then |bytes| else room
  }

  /** An empty datagram is dropped; any other replaces the empty buffer and counts as complete,
      whether it fitted or not. */
  function TakeDatagram(s: State, bytes: seq<Byte>, room: nat): State {
    var n := Fits(bytes, room);
    if n == 0 then s.(buffer := [], complete := false)
    else s.(buffer := bytes[..n], complete := true, received := s.received + [Data(bytes[..n], true, bytes[n..])])
  }

  /** nt_read_from_lower_layer; the bytes returned are the last entry of `delivered`. */
  function DoRead(cfg: Config, s: State, amt: nat): (State, Code) {
    if cfg.preserve && !s.complete then (s, WouldBlock)
    else if cfg.preserve && |s.buffer| > amt then (s, MessageTooBig)
    else if !cfg.preserve && s.buffer == [] then
      if s.eofSeen then (s.(eofSeen := false, delivered := s.delivered + [[]]), Ok) else (s, WouldBlock)
    else if |s.buffer| > amt then
      (s.(buffer := s.buffer[amt..], delivered := s.delivered + [s.buffer[..amt]]), Ok)
    else
      (s.(buffer := [], complete := false, delivered := s.delivered + [s.buffer]), Ok)
  }

  function Step(cfg: Config, s: State, e: Event): State {
    match e
    case Fragment(bytes, eor) => Append(s, bytes, eor)
    case Eof => EndOfFile(s)
    case Notification(shutdown) => Notify(s, shutdown)
    case Datagram(bytes) => TakeDatagram(s, bytes, cfg.room)
    case Read(amt) => DoRead(cfg, s, amt).0
  }

  ghost predicate Possible(cfg: Config, events: seq<Event>) {
    events == [] ||
    var before := events[..|events| - 1];
    Possible(cfg, before) && Enabled(cfg, Run(cfg, before), events[|events| - 1])
  }

  function Run(cfg: Config, events: seq<Event>): State {
    if events == [] then Fresh()
    else Step(cfg, Run(cfg, events[..|events| - 1]), events[|events| - 1])
  }

  // ---------------------------------------------------------------- what comes in

  /** What an event brings: fragments their bytes, datagrams what there is room for, end of file and
      shutdown events a mark. */
  function Brings(cfg: Config, e: Event): seq<Input> {
    match e
    case Fragment(bytes, eor) => [Data(bytes, eor, [])]
    case Datagram(bytes) =>
      if |bytes| == 0 || cfg.room == 0 then []
      else if |bytes| <= cfg.room then [Data(bytes, true, [])]
      else [Data(bytes[..cfg.room], true, bytes[cfg.room..])]
    case Eof => [Mark]
    case Notification(shutdown) => if shutdown then [Mark] else []
    case Read(_) => []
  }

  /** All that came in, from the events alone. */
  function Arrived(cfg: Config, events: seq<Event>): seq<Input> {
    if events == [] then [] else Arrived(cfg, events[..|events| - 1]) + Brings(cfg, events[|events| - 1])
  }

  lemma StepReceives(cfg: Config, s: State, e: Event)
    ensures Step(cfg, s, e).received == s.received + Brings(cfg, e)
  {
    assert s.received + [] == s.received;
    if e.Datagram? && |e.bytes| <= cfg.room {
      assert e.bytes[..|e.bytes|] == e.bytes && e.bytes[|e.bytes|..] == [];
    }
  }

  /** In every run, what was received is what arrived. */
  lemma {:induction false} ReceivedIsArrived(cfg: Config, events: seq<Event>)
    ensures Run(cfg, events).received == Arrived(cfg, events)
    decreases |events|
  {
    if events != [] {
      ReceivedIsArrived(cfg, events[..|events| - 1]);
      StepReceives(cfg, Run(cfg, events[..|events| - 1]), events[|events| - 1]);
    }
  }

  // ---------------------------------------------------------------- conservation

  function Joined(parts: seq<seq<Byte>>): seq<Byte> {
    if parts == [] then [] else Joined(parts[..|parts| - 1]) + parts[|parts| - 1]
  }

  function Bytes(h: seq<Input>): seq<Byte> {
    if h == [] then []
    else
      var r := Bytes(h[..|h| - 1]);
      var x := h[|h| - 1];
      if x.Data? then r + x.bytes else r
  }

  lemma JoinedSnoc(parts: seq<seq<Byte>>, p: seq<Byte>)
    ensures Joined(parts + [p]) == Joined(parts) + p
  {
    assert (parts + [p])[..|parts|] == parts;
  }

  lemma BytesSnoc(h: seq<Input>, x: Input)
    ensures Bytes(h + [x]) == if x.Data? then Bytes(h) + x.bytes else Bytes(h)
  {
    assert (h + [x])[..|h|] == h;
  }

  ghost predicate Conserved(cfg: Config, s: State) {
    && Joined(s.delivered) + s.buffer == Bytes(s.received)
    && (cfg.datagrams && !s.complete ==> s.buffer == [])
  }

  lemma Receiving(d: seq<seq<Byte>>, b: seq<Byte>, h: seq<Input>, x: Input)
    requires Joined(d) + b == Bytes(h)
    ensures Joined(d) + (if x.Data? then b + x.bytes else b) == Bytes(h + [x])
  {
    BytesSnoc(h, x);
    if x.Data? {
      assert (Joined(d) + b) + x.bytes == Joined(d) + (b + x.bytes);
    }
  }

  lemma Delivering(d: seq<seq<Byte>>, b: seq<Byte>, k: nat)
    requires k <= |b|
    ensures Joined(d + [b[..k]]) + b[k..] == Joined(d) + b
  {
    JoinedSnoc(d, b[..k]);
    assert b == b[..k] + b[k..];
    assert (Joined(d) + b[..k]) + b[k..] == Joined(d) + (b[..k] + b[k..]);
  }

  lemma ReadConserves(cfg: Config, s: State, amt: nat)
    requires Conserved(cfg, s)
    ensures Conserved(cfg, DoRead(cfg, s, amt).0)
  {
    var t := DoRead(cfg, s, amt).0;
    if t.delivered != s.delivered {
      if |s.buffer| > amt {
        PartRead(s.delivered, s.buffer, amt);
      } else if t.buffer == s.buffer {
        EmptyRead(s.delivered);
      } else {
        WholeRead(s.delivered, s.buffer);
      }
    }
  }

  lemma PartRead(d: seq<seq<Byte>>, b: seq<Byte>, k: nat)
    requires k <= |b|
    ensures Joined(d + [b[..k]]) + b[k..] == Joined(d) + b
  {
    Delivering(d, b, k);
  }

  lemma WholeRead(d: seq<seq<Byte>>, b: seq<Byte>)
    ensures Joined(d + [b]) + [] == Joined(d) + b
  {
    JoinedSnoc(d, b);
    assert Joined(d + [b]) + [] == Joined(d + [b]);
  }

  lemma EmptyRead(d: seq<seq<Byte>>)
    ensures Joined(d + [[]]) == Joined(d)
  {
    JoinedSnoc(d, []);
    assert Joined(d) + [] == Joined(d);
  }

  lemma StepConserves(cfg: Config, s: State, e: Event)
    requires Conserved(cfg, s) && Enabled(cfg, s, e)
    ensures Conserved(cfg, Step(cfg, s, e))
  {
    match e
    case Fragment(bytes, eor) => Receiving(s.delivered, s.buffer, s.received, Data(bytes, eor, []));
    case Eof => Receiving(s.delivered, s.buffer, s.received, Mark);
    case Notification(_) => Receiving(s.delivered, s.buffer, s.received, Mark);
    case Datagram(bytes) =>
      var n := Fits(bytes, cfg.room);
      assert [] + bytes[..n] == bytes[..n];
      Receiving(s.delivered, s.buffer, s.received, Data(bytes[..n], true, bytes[n..]));
    case Read(amt) => ReadConserves(cfg, s, amt);
  }

  lemma {:induction false} RunConserves(cfg: Config, events: seq<Event>)
    requires Possible(cfg, events)
    ensures Conserved(cfg, Run(cfg, events))
    decreases |events|
  {
    if events != [] {
      var before := events[..|events| - 1];
      RunConserves(cfg, before);
      StepConserves(cfg, Run(cfg, before), events[|events| - 1]);
    }
  }

  /** In every run, delivered bytes followed by buffered bytes are the bytes that arrived, in order;
      notifications add nothing. */
  lemma ReadConservation(cfg: Config, events: seq<Event>)
    requires Possible(cfg, events)
    ensures var s := Run(cfg, events);
            && Joined(s.delivered) + s.buffer == Bytes(Arrived(cfg, events))
            && (cfg.datagrams && !s.complete ==> s.buffer == [])
  {
    RunConserves(cfg, events);
    ReceivedIsArrived(cfg, events);
  }

  // ---------------------------------------------------------------- boundaries

  /** Data closed by an end of record or a mark, and the bytes still open. `cut` says that some
      mark closed a piece that was not empty. */
  datatype Pieces = Pieces(closed: seq<seq<Byte>>, open: seq<Byte>, cut: bool)

  function Split(h: seq<Input>): Pieces {
    if h == [] then Pieces([], [], false)
    else
      var p := Split(h[..|h| - 1]);
      match h[|h| - 1]
      case Data(bytes, last, _) =>
        if last then Pieces(p.closed + [p.open + bytes], [], p.cut) else Pieces(p.closed, p.open + bytes, p.cut)
      case Mark => Pieces(p.closed + [p.open], [], p.cut || p.open != [])
  }

  lemma SplitSnoc(h: seq<Input>, x: Input)
    ensures var p := Split(h);
            Split(h + [x]) ==
            match x
            case Data(bytes, last, _) =>
              if last then Pieces(p.closed + [p.open + bytes], [], p.cut) else Pieces(p.closed, p.open + bytes, p.cut)
            case Mark => Pieces(p.closed + [p.open], [], p.cut || p.open != [])
  {
    assert (h + [x])[..|h|] == h;
  }

  /** With boundaries, reads hand out the closed pieces one by one. */
  ghost predicate InStep(s: State) {
    var p := Split(s.received);
    if s.complete then p.closed == s.delivered + [s.buffer] && p.open == []
    else p.closed == s.delivered && p.open == s.buffer
  }

  lemma StepKeepsPieces(cfg: Config, s: State, e: Event)
    requires cfg.preserve && InStep(s) && Enabled(cfg, s, e)
    requires cfg.datagrams && !s.complete ==> s.buffer == []
    ensures InStep(Step(cfg, s, e))
  {
    var s' := Step(cfg, s, e);
    if s'.received != s.received {
      var x := s'.received[|s.received|];
      assert s'.received == s.received + [x];
      SplitSnoc(s.received, x);
      assert e.Datagram? ==> s.buffer + x.bytes == x.bytes;
    }
  }

  lemma {:induction false} RunInStep(cfg: Config, events: seq<Event>)
    requires cfg.preserve && Possible(cfg, events)
    ensures InStep(Run(cfg, events))
    decreases |events|
  {
    if events != [] {
      var before := events[..|events| - 1];
      RunInStep(cfg, before);
      RunConserves(cfg, before);
      StepKeepsPieces(cfg, Run(cfg, before), events[|events| - 1]);
    }
  }

  /** In every run with preserved boundaries the successful reads are, in order and each exactly, the
      pieces into which ends of record and marks cut what arrived, except for the one waiting in the
      buffer; what is still open is in the buffer. */
  lemma ReadsArePieces(cfg: Config, events: seq<Event>)
    requires cfg.preserve && Possible(cfg, events)
    ensures var s := Run(cfg, events);
            var p := Split(Arrived(cfg, events));
            && p.closed == s.delivered + (if s.complete then [s.buffer] else [])
            && p.open == (if s.complete then [] else s.buffer)
  {
    RunInStep(cfg, events);
    ReceivedIsArrived(cfg, events);
  }

  // ---------------------------------------------------------------- what a read returns

  /** The next closed piece is returned if there is one and it fits. */
  ghost predicate GivesPiece(s: State, t: State, code: Code, closed: seq<seq<Byte>>, amt: nat) {
    var d := |s.delivered|;
    && s.delivered <= closed
    && if |closed| == d then code == WouldBlock && t == s
       else if |closed[d]| > amt then code == MessageTooBig && t == s
       else code == Ok && t.delivered == s.delivered + [closed[d]]
  }

  lemma PieceRead(cfg: Config, s: State, closed: seq<seq<Byte>>, amt: nat)
    requires cfg.preserve && closed == s.delivered + (if s.complete then [s.buffer] else [])
    ensures var (t, code) := DoRead(cfg, s, amt); GivesPiece(s, t, code, closed, amt)
  {
  }

  /** With boundaries a read returns the next of the pieces that arrived, if one is closed and fits. */
  lemma ReadReturnsPiece(cfg: Config, events: seq<Event>, amt: nat)
    requires cfg.preserve && Possible(cfg, events)
    ensures var s := Run(cfg, events);
            var (t, code) := DoRead(cfg, s, amt);
            t == Run(cfg, events + [Read(amt)]) && GivesPiece(s, t, code, Split(Arrived(cfg, events)).closed, amt)
  {
    ReadsArePieces(cfg, events);
    PieceRead(cfg, Run(cfg, events), Split(Arrived(cfg, events)).closed, amt);
    RunRead(cfg, events, amt);
  }

  lemma RunRead(cfg: Config, events: seq<Event>, amt: nat)
    ensures Run(cfg, events + [Read(amt)]) == DoRead(cfg, Run(cfg, events), amt).0
  {
    assert (events + [Read(amt)])[..|events|] == events;
  }

  /** As many bytes that were not read yet as asked for; when there are none, the end of file once, or
      nothing. Reading everything lets new data in. */
  ghost predicate GivesBytes(s: State, t: State, code: Code, all: seq<Byte>, amt: nat) {
    var d := |Joined(s.delivered)|;
    && d <= |all|
    && if d < |all| then
         var n := if |all| - d < amt then |all| - d else amt;
         && code == Ok && t.delivered == s.delivered + [all[d..d + n]]
         && (n == |all| - d ==> !t.complete) && t.eofSeen == s.eofSeen
       else if s.eofSeen then code == Ok && t.delivered == s.delivered + [[]] && !t.eofSeen
       else code == WouldBlock && t == s
  }

  lemma BytesRead(cfg: Config, s: State, all: seq<Byte>, amt: nat)
    requires !cfg.preserve && Joined(s.delivered) + s.buffer == all
    ensures var (t, code) := DoRead(cfg, s, amt); GivesBytes(s, t, code, all, amt)
  {
    var d := |Joined(s.delivered)|;
    if d < |all| {
      var n := if |all| - d < amt then |all| - d else amt;
      assert all[d..d + n] == s.buffer[..n] && (n == |s.buffer| ==> s.buffer[..n] == s.buffer);
    }
  }

  /** Without boundaries a read returns the next of the bytes that arrived. */
  lemma ReadReturnsBytes(cfg: Config, events: seq<Event>, amt: nat)
    requires !cfg.preserve && Possible(cfg, events)
    ensures var s := Run(cfg, events);
            var (t, code) := DoRead(cfg, s, amt);
            t == Run(cfg, events + [Read(amt)]) && GivesBytes(s, t, code, Bytes(Arrived(cfg, events)), amt)
  {
    ReadConservation(cfg, events);
    BytesRead(cfg, Run(cfg, events), Bytes(Arrived(cfg, events)), amt);
    RunRead(cfg, events, amt);
  }

  /** An end of file or a shutdown event came, and no read has reported it since. */
  ghost predicate EofOpen(cfg: Config, events: seq<Event>)
    decreases |events|
  {
    events != [] &&
    var before, e := events[..|events| - 1], events[|events| - 1];
    if Mark in Brings(cfg, e) then true
    else EofOpen(cfg, before) && !(e.Read? && !cfg.preserve && Run(cfg, before).buffer == [])
  }

  lemma {:induction false} EofSeenIff(cfg: Config, events: seq<Event>)
    ensures Run(cfg, events).eofSeen <==> EofOpen(cfg, events)
    decreases |events|
  {
    if events != [] {
      EofSeenIff(cfg, events[..|events| - 1]);
    }
  }

  // ---------------------------------------------------------------- the peer's messages

  /** The peer's messages: all data it sent, cut at end-of-record marks and nowhere else. */
  datatype Messages = Messages(whole: seq<seq<Byte>>, partial: seq<Byte>)

  function Sent(h: seq<Input>): Messages {
    if h == [] then Messages([], [])
    else
      var m := Sent(h[..|h| - 1]);
      match h[|h| - 1]
      case Data(bytes, last, lost) =>
        var more := m.partial + bytes + lost;
        if last then Messages(m.whole + [more], []) else Messages(m.whole, more)
      case Mark => m
  }

  function NonEmpty(parts: seq<seq<Byte>>): seq<seq<Byte>> {
    if parts == [] then []
    else
      var r := NonEmpty(parts[..|parts| - 1]);
      var p := parts[|parts| - 1];
      if p == [] then r else r + [p]
  }

  lemma NonEmptySnoc(parts: seq<seq<Byte>>, p: seq<Byte>)
    ensures NonEmpty(parts + [p]) == if p == [] then NonEmpty(parts) else NonEmpty(parts) + [p]
  {
    assert (parts + [p])[..|parts|] == parts;
  }

  /** Fragments and datagrams carry data, and only a whole datagram can lose some. */
  ghost predicate Solid(h: seq<Input>) {
    forall i :: 0 <= i < |h| && h[i].Data? ==> h[i].bytes != [] && (h[i].lost != [] ==> h[i].last)
  }

  /** Some datagram did not fit. */
  ghost predicate Truncated(h: seq<Input>) { exists i :: 0 <= i < |h| && h[i].Data? && h[i].lost != [] }

  lemma TruncatedSnoc(g: seq<Input>, x: Input)
    ensures Truncated(g + [x]) <==> Truncated(g) || (x.Data? && x.lost != [])
  {
    var h := g + [x];
    if Truncated(g) {
      var i :| 0 <= i < |g| && g[i].Data? && g[i].lost != [];
      assert h[i] == g[i];
    }
    assert h[|g|] == x;
  }

  /** The pieces agree with the messages, or piece `i` is the first that does not. */
  ghost predicate Agree(p: Pieces, m: Messages) { NonEmpty(p.closed) == m.whole && p.open == m.partial }

  ghost predicate Differs(p: Pieces, m: Messages, i: nat) {
    var n := NonEmpty(p.closed);
    i < |n| && if |m.whole| > i then m.whole[i] != n[i] else |m.whole| == i && n[i] <= m.partial
  }

  /** Data adds to both sides alike, except for what is lost. */
  lemma DataAgrees(g: seq<Input>, x: Input)
    requires x.Data? && x.bytes != [] && (x.lost != [] ==> x.last) && Agree(Split(g), Sent(g))
    ensures var p, m := Split(g + [x]), Sent(g + [x]);
            if x.lost == [] then Agree(p, m) else Differs(p, m, |NonEmpty(Split(g).closed)|)
  {
    assert (g + [x])[..|g|] == g;
    var p, m := Split(g), Sent(g);
    NonEmptySnoc(p.closed, p.open + x.bytes);
    if x.lost == [] {
      assert m.partial + x.bytes + x.lost == p.open + x.bytes;
    } else {
      assert |m.partial + x.bytes + x.lost| > |p.open + x.bytes|;
    }
  }

  lemma MarkAgrees(g: seq<Input>)
    requires Agree(Split(g), Sent(g))
    ensures var p, m := Split(g + [Mark]), Sent(g + [Mark]);
            if Split(g).open == [] then Agree(p, m) else Differs(p, m, |NonEmpty(Split(g).closed)|)
  {
    assert (g + [Mark])[..|g|] == g;
    NonEmptySnoc(Split(g).closed, Split(g).open);
  }

  /** Once a piece differs from the message in its place, it always will. */
  lemma StillDiffers(g: seq<Input>, x: Input, i: nat)
    requires Differs(Split(g), Sent(g), i) && (x.Data? ==> x.bytes != [])
    ensures Differs(Split(g + [x]), Sent(g + [x]), i)
  {
    assert (g + [x])[..|g|] == g;
    var p, m := Split(g), Sent(g);
    if x.Data? {
      NonEmptySnoc(p.closed, p.open + x.bytes);
      assert |m.partial + x.bytes + x.lost| > |m.partial|;
    } else {
      NonEmptySnoc(p.closed, p.open);
    }
  }

  /** Without a cut and without lost data the pieces are the messages; otherwise some piece is not
      the message in its place. */
  lemma {:induction false} PiecesVersusMessages(h: seq<Input>) returns (i: nat)
    requires Solid(h)
    ensures if !Split(h).cut && !Truncated(h) then Agree(Split(h), Sent(h)) else Differs(Split(h), Sent(h), i)
    decreases |h|
  {
    i := 0;
    if h != [] {
      var g, x := h[..|h| - 1], h[|h| - 1];
      assert h == g + [x];
      TruncatedSnoc(g, x);
      i := PiecesVersusMessages(g);
      if Split(g).cut || Truncated(g) {
        StillDiffers(g, x, i);
      } else {
        i := |NonEmpty(Split(g).closed)|;
        if x.Data? { DataAgrees(g, x); } else { MarkAgrees(g); }
      }
    }
  }

  /** Non-empty pieces are whole messages, in order, if and only if no end of file and no shutdown
      event came in the middle of a message, and no datagram was longer than the buffer. */
  lemma WholeIff(h: seq<Input>)
    requires Solid(h)
    ensures NonEmpty(Split(h).closed) <= Sent(h).whole <==> !Split(h).cut && !Truncated(h)
  {
    var i := PiecesVersusMessages(h);
  }

  lemma {:induction false} RunSolid(cfg: Config, events: seq<Event>)
    requires Possible(cfg, events)
    ensures Solid(Run(cfg, events).received)
    decreases |events|
  {
    if events != [] {
      RunSolid(cfg, events[..|events| - 1]);
    }
  }

  /** The datagram is longer than the buffer. */
  predicate Oversized(cfg: Config, e: Event) { e.Datagram? && |e.bytes| > cfg.room }

  ghost predicate AnyOversized(cfg: Config, events: seq<Event>) {
    exists i :: 0 <= i < |events| && Oversized(cfg, events[i])
  }

  lemma BringsTruncated(cfg: Config, h: seq<Input>, e: Event)
    requires e.Datagram? ==> cfg.room > 0
    ensures Truncated(h + Brings(cfg, e)) <==> Truncated(h) || Oversized(cfg, e)
  {
    var b := Brings(cfg, e);
    if b == [] {
      assert h + b == h;
    } else {
      assert b == [b[0]];
      TruncatedSnoc(h, b[0]);
    }
  }

  /** Data is lost in a run exactly when a datagram is longer than the buffer. */
  lemma {:induction false} TruncatedIff(cfg: Config, events: seq<Event>)
    requires Possible(cfg, events)
    ensures Truncated(Arrived(cfg, events)) <==> AnyOversized(cfg, events)
    decreases |events|
  {
    if events != [] {
      var n := |events| - 1;
      TruncatedIff(cfg, events[..n]);
      BringsTruncated(cfg, Arrived(cfg, events[..n]), events[n]);
      OversizedSnoc(cfg, events[..n], events[n]);
      assert events == events[..n] + [events[n]];
    }
  }

  lemma OversizedSnoc(cfg: Config, events: seq<Event>, e: Event)
    ensures AnyOversized(cfg, events + [e]) <==> AnyOversized(cfg, events) || Oversized(cfg, e)
  {
    var all := events + [e];
    if AnyOversized(cfg, events) {
      var i :| 0 <= i < |events| && Oversized(cfg, events[i]);
      assert all[i] == events[i];
    }
    assert all[|events|] == e;
  }

  /** The non-empty reads followed by the waiting message. */
  function Obtained(s: State): seq<seq<Byte>> {
    NonEmpty(s.delivered) + if s.complete && s.buffer != [] then [s.buffer] else []
  }

  lemma ObtainedArePieces(s: State, closed: seq<seq<Byte>>)
    requires closed == s.delivered + (if s.complete then [s.buffer] else [])
    ensures Obtained(s) == NonEmpty(closed)
  {
    NonEmptySnoc(s.delivered, s.buffer);
    if !s.complete {
      assert closed == s.delivered;
    }
  }

  lemma AllWholeIff(h: seq<Input>)
    requires Solid(h)
    ensures NonEmpty(Split(h).closed) == Sent(h).whole <==> !Split(h).cut && !Truncated(h)
  {
    var i := PiecesVersusMessages(h);
  }

  /** In every run with preserved boundaries, the non-empty reads followed by the waiting message are
      exactly the peer's messages if and only if no mark came inside a message and no datagram was
      longer than the buffer. */
  lemma BoundariesPreserved(cfg: Config, events: seq<Event>)
    requires cfg.preserve && Possible(cfg, events)
    ensures Obtained(Run(cfg, events)) == Sent(Arrived(cfg, events)).whole
            <==> !Split(Arrived(cfg, events)).cut && !AnyOversized(cfg, events)
  {
    var s, h := Run(cfg, events), Arrived(cfg, events);
    ReadsArePieces(cfg, events);
    ObtainedArePieces(s, Split(h).closed);
    assert Solid(h) by {
      RunSolid(cfg, events);
      ReceivedIsArrived(cfg, events);
    }
    AllWholeIff(h);
    TruncatedIff(cfg, events);
  }

  /** A datagram longer than the buffer: the read succeeds and returns a part of it. */
  lemma OversizedExample(cfg: Config, bytes: seq<Byte>)
    requires cfg.datagrams && cfg.preserve && 0 < cfg.room < |bytes|
    ensures var events := [Datagram(bytes), Read(cfg.room)];
            var s := Run(cfg, events);
            && Possible(cfg, events) && DoRead(cfg, Run(cfg, events[..1]), cfg.room).1 == Ok
            && s.delivered == [bytes[..cfg.room]] && Sent(s.received).whole == [bytes] && !Split(s.received).cut
  {
    var e1 := [Datagram(bytes)];
    var e2 := e1 + [Read(cfg.room)];
    var x := Data(bytes[..cfg.room], true, bytes[cfg.room..]);
    assert e1[..0] == [] && e2[..1] == e1;
    assert Run(cfg, e1) == State(bytes[..cfg.room], true, false, [x], []);
    assert Run(cfg, e2) == State([], false, false, [x], [bytes[..cfg.room]]);
    assert [x][..0] == [];
    assert [] + bytes[..cfg.room] + bytes[cfg.room..] == bytes;
    assert e2 == [Datagram(bytes), Read(cfg.room)];
  }

  /** A fragment, a shutdown event and a read: the application gets half a message. */
  lemma CutExample()
    ensures var events := [Fragment([1], false), Notification(true), Read(1)];
            var cfg := Config(false, true, 8192);
            var s := Run(cfg, events);
            Possible(cfg, events) && s.delivered == [[1]] && Sent(s.received).whole == []
  {
    var cfg := Config(false, true, 8192);
    var e1 := [Fragment([1], false)];
    var e2 := e1 + [Notification(true)];
    var e3 := e2 + [Read(1)];
    var x := Data([1], false, []);
    assert e1[..0] == [] && e2[..1] == e1 && e3[..2] == e2;
    assert Run(cfg, e1) == State([1], false, false, [x], []);
    assert Run(cfg, e2) == State([1], true, true, [x, Mark], []);
    assert Run(cfg, e3) == State([], false, true, [x, Mark], [[1]]);
    var h := [x, Mark];
    assert h[..1] == [x] && h[..1][..0] == [];
    assert e3 == [Fragment([1], false), Notification(true), Read(1)];
  }
}
