/**
 The wire format of the file transfer: a command byte, a flag byte, a big-endian 32-bit number and
 the payload.
 */
module PeerWire {
  import opened Types
  import opened PeerTransfer

  const HEADER_SIZE := 6
  const LIMIT := 0x1_0000_0000

  function CodeOf(c: Cmd): Byte {
    match c
    case Unset => 0
    case ACK => 1
    case CONNECT => 2
    case CONNECTACK => 3
    case DATA => 4
    case COMPLETE => 6
    case ERROR => 254
  }

  /** Bytes that are no command end the process like no command at all. */
  function CmdOf(b: Byte): Cmd {
    if b == 1 then ACK
    else if b == 2 then CONNECT
    else if b == 3 then CONNECTACK
    else if b == 4 then DATA
    else if b == 6 then COMPLETE
    else if b == 254 then ERROR
    else Unset
  }

  function Be32(n: nat): (r: seq<Byte>)
    requires n < LIMIT
    ensures |r| == 4
  {
    [(n / 0x100_0000) as Byte, (n / 0x1_0000 % 256) as Byte, (n / 0x100 % 256) as Byte, (n % 256) as Byte]
  }

  function FromBe32(b: seq<Byte>): nat
    requires |b| == 4
  {
    ((b[0] as nat * 256 + b[1] as nat) * 256 + b[2] as nat) * 256 + b[3] as nat
  }

  lemma Be32RoundTrip(n: nat)
    requires n < LIMIT
    ensures FromBe32(Be32(n)) == n
  {
    assert n / 0x100 == n / 0x1_0000 * 256 + n / 0x100 % 256;
    assert n / 0x1_0000 == n / 0x100_0000 * 256 + n / 0x1_0000 % 256;
  }

  lemma Be32Inverse(b: seq<Byte>)
    requires |b| == 4
    ensures FromBe32(b) < LIMIT && Be32(FromBe32(b)) == b
  {
    var n := FromBe32(b);
    var high := b[0] as nat * 256 + b[1] as nat;
    var upper := high * 256 + b[2] as nat;
    assert n == upper * 256 + b[3] as nat;
    assert n / 0x100 == upper && n % 256 == b[3] as nat;
    assert n / 0x1_0000 == upper / 256 == high && upper % 256 == b[2] as nat;
    assert n / 0x100_0000 == high / 256 == b[0] as nat && high % 256 == b[1] as nat;
  }

  /** What preparemsg puts on the wire. */
  function Wire(cmd: Byte, size: nat, data: seq<Byte>): (r: seq<Byte>)
    requires size < LIMIT
    ensures |r| == HEADER_SIZE + |data|
  {
    [cmd, 0] + Be32(size) + data
  }

  /** What parsemsg makes of the bytes of one message. Too few are as bad as an unknown command. A
      bare header leaves the payload of the message before in place. */
  function Decoded(b: seq<Byte>, stale: seq<Byte>): Msg {
    if |b| < HEADER_SIZE then Msg(Unset, 0, [])
    else Msg(CmdOf(b[0]), FromBe32(b[2..6]), if |b| > HEADER_SIZE then b[6..] else stale)
  }

  lemma WireParts(cmd: Byte, size: nat, data: seq<Byte>)
    requires size < LIMIT
    ensures var b := Wire(cmd, size, data); b[0] == cmd && b[2..6] == Be32(size) && b[6..] == data
  {
  }

  /** Reading what was written gives the message back; without a payload, the old one stays. */
  lemma WireRoundTrip(c: Cmd, size: nat, data: seq<Byte>, stale: seq<Byte>)
    requires size < LIMIT
    ensures Decoded(Wire(CodeOf(c), size, data), stale) == Msg(c, size, if data == [] then stale else data)
  {
    WireParts(CodeOf(c), size, data);
    Be32RoundTrip(size);
  }

  /** Bytes that a node sends for a message of the protocol; CONNECT also carries the file name. */
  ghost predicate Carries(b: seq<Byte>, m: Msg) {
    && |b| >= HEADER_SIZE && CmdOf(b[0]) == m.cmd && FromBe32(b[2..6]) == m.num
    && (m.cmd == DATA ==> |b| > HEADER_SIZE && b[6..] == m.data)
  }

  lemma WireCarries(c: Cmd, size: nat, data: seq<Byte>, m: Msg)
    requires size < LIMIT && m.cmd == c && m.num == size && (c == DATA ==> data == m.data && data != [])
    ensures Carries(Wire(CodeOf(c), size, data), m)
  {
    WireParts(CodeOf(c), size, data);
    Be32RoundTrip(size);
  }

  /** A message is understood as it was meant, whatever payload came before it. */
  lemma UnderstoodAsMeant(p: Peer, b: seq<Byte>, stale: seq<Byte>, m: Msg)
    requires Carries(b, m)
    ensures OnReadable(p, Decoded(b, stale)) == OnReadable(p, m)
  {
  }
}
