/**
 The source-address list and the DNS resolver as one machine: address events, lookups, replies
 and timeouts in any order. Pairs point into the source list, requests live in a queue until
 their callback has run.
 */
module Resolver {
  import opened Types
  import opened DnsReplies

  datatype Family = V4 | V6

  /** `id` stands for the address object itself, which pairs point to. */
  datatype Source = Source(id: nat, ifIdx: nat, family: Family, ip: nat, pref: nat)
  {
    /** Deprecated addresses are not used as a source (section 5.5.4 of RFC 4862). */
    predicate Deprecated() { family == V6 && pref == 0 }

    predicate Is(f: Family, i: nat, a: nat) { family == f && ifIdx == i && ip == a }
  }

  datatype Kind = Name | Literal | Localhost

  /** `rearmed` is name_resolved_timeout; `targets` are the addresses of a literal; `timer` says
      whether the request's timer is armed; `made` counts the pairs made for it. */
  datatype Request = Request(
    id: nat, family: Option<Family>, kind: Kind, targets: seq<nat>, pairs: seq<Pair>, made: nat, rearmed: bool,
    timer: bool)

  datatype Res = Res(source: Source, dst: nat)

  datatype Code = Ok | TimedOut | Error

  datatype Callback = Callback(req: nat, kind: Kind, targets: seq<nat>, code: Code, results: seq<Res>)

  /** Finished requests stay in `dead` until their timer handle is closed, and pairs taken away from
      a request stay in `deleted` until their socket is closed: both can be reached by a late event.
      `fault` is set when a handler follows a pointer to something that was freed. */
  datatype State = State(
    sources: seq<Source>,
    nextSource: nat,
    queue: seq<Request>,
    dead: set<Request>,
    deleted: set<Pair>,
    nextRequest: nat,
    callbacks: seq<Callback>,
    dumped: bool,
    fault: bool)

  /** `made` says how many pairs could be set up, per request or per source: one for every server of
      the family whose socket and query did not fail. Timers and replies name the request and the
      pair that their handle belongs to, wherever these are. */
  datatype Event =
    | Address(added: bool, family: Family, ifIdx: nat, ip: nat, pref: nat, made: seq<nat>)
    | Tick
    | Dumped
    | Resolve(wanted: Option<Family>, kind: Kind, targets: seq<nat>, made: seq<nat>)
    | Reply(owner: nat, serial: nat, good: bool, records: seq<Option<nat>>)
    | Timer(id: nat)
    | TimerClosed(id: nat)
    | PairClosed(owner: nat, serial: nat)

  function Fresh(): State { State([], 0, [], {}, {}, 0, [], false, false) }

  // ---------------------------------------------------------------- sources and pairs

  function IndexOf(sources: seq<Source>, f: Family, i: nat, a: nat): (r: Option<nat>)
    ensures r.Some? ==> r.value < |sources| && sources[r.value].Is(f, i, a)
    ensures r.None? ==> forall k :: 0 <= k < |sources| ==> !sources[k].Is(f, i, a)
  {
    if sources == [] then None
    else if sources[0].Is(f, i, a) then Some(0)
    else
      var r := IndexOf(sources[1..], f, i, a);
      if r.Some? then Some(r.value + 1) else None
  }

  function Copies(r: Request, src: nat, n: nat): (pairs: seq<Pair>)
    ensures |pairs| == n && forall i :: 0 <= i < n ==> pairs[i] == NewPair(r.id, r.made + i, src)
  {
    seq(n, (i: nat) => NewPair(r.id, r.made + i, src))
  }

  /** nt_resolver_create_pairs for one source, of which `n` succeed. */
  function AddPairs(r: Request, src: nat, n: nat): Request {
    r.(pairs := Copies(r, src, n) + r.pairs, made := r.made + n)
  }

  function Made(made: seq<nat>, k: nat): nat { if k < |made| then made[k] else 0 }

  /** Which lookups use a source: not literals, and only those of its family. */
  predicate Wants(r: Request, s: Source) {
    r.kind != Literal && (r.family.None? || r.family.value == s.family)
  }

  /** neat_resolver_handle_newaddr. */
  function WithPairs(queue: seq<Request>, s: Source, made: seq<nat>): (r: seq<Request>)
    ensures |r| == |queue|
    ensures forall k :: 0 <= k < |queue| ==>
              r[k] ==
                if s.Deprecated() || !Wants(queue[k], s) then queue[k] else AddPairs(queue[k], s.id, Made(made, k))
  {
    if s.Deprecated() then queue
    else seq(|queue|, k requires 0 <= k < |queue| =>
               if Wants(queue[k], s) then AddPairs(queue[k], s.id, Made(made, k)) else queue[k])
  }

  /** A pair whose source has the deleted address, on whatever interface. */
  predicate Doomed(sources: seq<Source>, f: Family, a: nat, p: Pair) {
    exists k :: 0 <= k < |sources| && sources[k].id == p.src && sources[k].family == f && sources[k].ip == a
  }

  /** nt_resolver_delete_pairs: the pairs that stay. */
  function Survivors(sources: seq<Source>, f: Family, a: nat, pairs: seq<Pair>): (r: seq<Pair>)
    ensures forall i :: 0 <= i < |r| ==> r[i] in pairs && !Doomed(sources, f, a, r[i])
  {
    if pairs == [] then []
    else
      var n := |pairs| - 1;
      var r := Survivors(sources, f, a, pairs[..n]);
      if Doomed(sources, f, a, pairs[n]) then r else r + [pairs[n]]
  }

  /** nt_resolver_mark_pair_del: receiving stops before the pair goes to the list of deleted ones. */
  function Stopped(p: Pair): Pair { p.(listening := false) }

  /** And the pairs that go. */
  function Removed(sources: seq<Source>, f: Family, a: nat, pairs: seq<Pair>): (r: set<Pair>)
    ensures forall p :: p in r ==> !p.listening
  {
    if pairs == [] then {}
    else
      var n := |pairs| - 1;
      var r := Removed(sources, f, a, pairs[..n]);
      if Doomed(sources, f, a, pairs[n]) then r + {Stopped(pairs[n])} else r
  }

  function WithoutPairs(sources: seq<Source>, queue: seq<Request>, f: Family, a: nat): (r: seq<Request>)
    ensures |r| == |queue|
    ensures forall k :: 0 <= k < |queue| ==> r[k] == queue[k].(pairs := Survivors(sources, f, a, queue[k].pairs))
  {
    seq(|queue|, k requires 0 <= k < |queue| => queue[k].(pairs := Survivors(sources, f, a, queue[k].pairs)))
  }

  /** What all of the first `n` requests lose. */
  function AllRemoved(sources: seq<Source>, queue: seq<Request>, n: nat, f: Family, a: nat): (r: set<Pair>)
    requires n <= |queue|
    ensures forall p :: p in r ==> !p.listening
  {
    if n == 0 then {} else AllRemoved(sources, queue, n - 1, f, a) + Removed(sources, f, a, queue[n - 1].pairs)
  }

  // ---------------------------------------------------------------- address events

  /** nt_addr_update_src_list: the delete event reaches the resolver before the address goes. */
  function OnAddress(s: State, e: Event): State
    requires e.Address?
  {
    var at := IndexOf(s.sources, e.family, e.ifIdx, e.ip);
    if at.Some? && !e.added then
      s.(queue := WithoutPairs(s.sources, s.queue, e.family, e.ip),
         deleted := s.deleted + AllRemoved(s.sources, s.queue, |s.queue|, e.family, e.ip),
         sources := s.sources[..at.value] + s.sources[at.value + 1..])
    else if at.Some? then
      s.(sources := if e.family == V6 then s.sources[at.value := s.sources[at.value].(pref := e.pref)] else s.sources)
    else
      var src := Source(s.nextSource, e.ifIdx, e.family, e.ip, e.pref);
      s.(sources := [src] + s.sources, nextSource := s.nextSource + 1, queue := WithPairs(s.queue, src, e.made))
  }

  const UNLIMITED_LIFETIME := 0xffff_ffff

  /** nt_addr_lifetime_timeout_cb: preferred lifetimes of IPv6 addresses run down by one. */
  function Aged(sources: seq<Source>): (r: seq<Source>)
    ensures |r| == |sources|
    ensures forall k :: 0 <= k < |sources| ==> r[k] == sources[k].(pref := r[k].pref)
  {
    seq(|sources|, k requires 0 <= k < |sources| =>
          if sources[k].family == V6 && sources[k].pref != UNLIMITED_LIFETIME && sources[k].pref > 0
          then sources[k].(pref := sources[k].pref - 1) else sources[k])
  }

  // ---------------------------------------------------------------- requests

  /** A new lookup with its pairs for the first `n` sources. */
  function FirstPairs(sources: seq<Source>, n: nat, r: Request, made: seq<nat>): (q: Request)
    requires n <= |sources|
    ensures q == r.(pairs := q.pairs, made := q.made)
  {
    if n == 0 then r
    else
      var q := FirstPairs(sources, n - 1, r, made);
      var s := sources[n - 1];
      if Wants(r, s) && !s.Deprecated() then AddPairs(q, s.id, Made(made, n - 1)) else q
  }

  /** nt_resolve and nt_start_request: the timer is armed; literals and localhost only wait for it.
      Localhost has one target, the loopback address of each source's family. */
  function OnResolve(s: State, e: Event): State
    requires e.Resolve?
  {
    var targets := if e.kind == Literal then e.targets else if e.kind == Localhost then [0] else [];
    var r := Request(s.nextRequest, e.wanted, e.kind, targets, [], 0, false, true);
    var q := if e.kind == Name then FirstPairs(s.sources, |s.sources|, r, e.made) else r;
    s.(queue := s.queue + [q], nextRequest := s.nextRequest + 1)
  }

  /** nt_resolver_start_timeout. */
  function Rearmed(r: Request): Request { r.(timer := true, rearmed := true) }

  ghost predicate Listed(sources: seq<Source>, id: nat) {
    exists k :: 0 <= k < |sources| && sources[k].id == id
  }

  /** neat_resolver_dns_recv_cb on a pair of a queued request. */
  ghost function OnReply(s: State, k: nat, p: nat, good: bool, records: seq<Option<nat>>): State
    requires k < |s.queue| && p < |s.queue[k].pairs| && |s.queue[k].pairs[p].slots| == MAX_NUM_RESOLVED
  {
    var r := s.queue[k];
    if !good then s.(queue := s.queue[k := Rearmed(r)])
    else if !Listed(s.sources, r.pairs[p].src) then s.(fault := true)
    else
      var (pairs, stored) := TakeRecords(r.pairs, p, 0, records);
      var q := r.(pairs := pairs);
      s.(queue := s.queue[k := if stored > 0 && !r.rearmed then Rearmed(q) else q])
  }

  /** Some record of the reply is an address that the request does not have yet. */
  ghost predicate Useful(pairs: seq<Pair>, src: nat, records: seq<Option<nat>>) {
    exists i :: 0 <= i < |records| && records[i].Some? && !Seen(pairs, src, records[i].value)
  }

  /** The same on a pair that was deleted: it would rearm the timer of its request, dead or alive,
      and follow its pointers. Its slots are never read again. */
  ghost function OnStrayReply(s: State, p: Pair, good: bool, records: seq<Option<nat>>): State {
    if good && !Listed(s.sources, p.src) then s.(fault := true)
    else if exists k :: 0 <= k < |s.queue| && s.queue[k].id == p.owner then
      var k :| 0 <= k < |s.queue| && s.queue[k].id == p.owner;
      var r := s.queue[k];
      s.(queue := s.queue[k := if !good || (Useful(r.pairs, p.src, records) && !r.rearmed) then Rearmed(r) else r])
    else if exists r :: r in s.dead && r.id == p.owner then
      var r :| r in s.dead && r.id == p.owner;
      if !good || (Useful(r.pairs, p.src, records) && !r.rearmed) then s.(dead := s.dead - {r} + {Rearmed(r)}) else s
    else s.(fault := true)
  }

  // ---------------------------------------------------------------- results

  function SourceOf(sources: seq<Source>, id: nat): (r: Source)
    requires Listed(sources, id)
    ensures r in sources && r.id == id
  {
    if sources[0].id == id then sources[0] else SourceOf(sources[1..], id)
  }

  /** The results of one pair from slot `i` on, the latest first: an empty slot ends them, and so
      does a source that has become deprecated. */
  function SlotResults(src: Source, slots: seq<Option<nat>>, i: nat): seq<Res>
    requires i <= |slots|
    decreases |slots| - i
  {
    if i == |slots| || slots[i].None? || src.Deprecated() then []
    else SlotResults(src, slots, i + 1) + [Res(src, slots[i].value)]
  }

  /** nt_resolver_populate_results over the first `n` pairs. */
  function PairResults(sources: seq<Source>, pairs: seq<Pair>, n: nat): seq<Res>
    requires n <= |pairs| && forall p :: 0 <= p < |pairs| ==> Listed(sources, pairs[p].src)
  {
    if n == 0 then []
    else
      var p := pairs[n - 1];
      SlotResults(SourceOf(sources, p.src), p.slots, 0) + PairResults(sources, pairs, n - 1)
  }

  /** Literals and localhost: every usable source with every target of its family. */
  function DirectResults(sources: seq<Source>, r: Request, targets: seq<nat>): seq<Res> {
    if targets == [] then []
    else DirectResults(sources, r, targets[1..]) + ForTarget(sources, r, targets[0])
  }

  function ForTarget(sources: seq<Source>, r: Request, target: nat): seq<Res> {
    if sources == [] then []
    else
      var s := sources[0];
      var rest := ForTarget(sources[1..], r, target);
      if s.Deprecated() || (r.kind == Literal && r.family != Some(s.family)) then rest else rest + [Res(s, target)]
  }

  /** nt_resolver_request_cleanup: every pair stops listening, the timer is stopped and closed, and
      the request moves to the dead ones. */
  function Cleaned(r: Request): Request { r.(pairs := [], timer := false) }

  function AllStopped(pairs: seq<Pair>, n: nat): (r: set<Pair>)
    requires n <= |pairs|
    ensures forall p :: p in r ==> !p.listening
  {
    if n == 0 then {} else AllStopped(pairs, n - 1) + {Stopped(pairs[n - 1])}
  }

  function Done(s: State, k: nat, code: Code, results: seq<Res>): State
    requires k < |s.queue|
  {
    var r := s.queue[k];
    s.(queue := s.queue[..k] + s.queue[k + 1..],
       dead := s.dead + {Cleaned(r)},
       deleted := s.deleted + AllStopped(r.pairs, |r.pairs|),
       callbacks := s.callbacks + [Callback(r.id, r.kind, r.targets, code, results)])
  }

  /** What a timeout answers, or nothing: a literal or localhost waits for the first dump of
      addresses. */
  ghost function Answer(s: State, r: Request): Option<(Code, seq<Res>)>
    requires forall p :: 0 <= p < |r.pairs| ==> Listed(s.sources, r.pairs[p].src)
  {
    if r.kind == Name && !r.rearmed then Some((TimedOut, []))
    else if r.kind != Name && s.sources == [] then
      if s.dumped then Some((Error, [])) else None
    else
      var results := if r.kind == Name then PairResults(s.sources, r.pairs, |r.pairs|)
                     else DirectResults(s.sources, r, r.targets);
      Some((if results == [] then Error else Ok, results))
  }

  /** nt_resolver_timeout_shared on a queued request. The timer does not repeat: it is no longer
      armed when the handler runs, and the retry arms it again. */
  ghost function OnTimer(s: State, k: nat): State
    requires k < |s.queue|
  {
    var r := s.queue[k];
    if exists p :: 0 <= p < |r.pairs| && !Listed(s.sources, r.pairs[p].src) then s.(fault := true)
    else
      var a := Answer(s, r);
      if a.None? then s.(queue := s.queue[k := r.(timer := true)]) else Done(s, k, a.value.0, a.value.1)
  }

  /** The same on a dead request: it would be called back once more. */
  ghost function OnDeadTimer(s: State, r: Request): State
    requires r in s.dead
  {
    if exists p :: 0 <= p < |r.pairs| && !Listed(s.sources, r.pairs[p].src) then s.(fault := true)
    else
      var a := Answer(s, r);
      if a.None? then s
      else
        s.(dead := s.dead - {r} + {Cleaned(r)},
           callbacks := s.callbacks + [Callback(r.id, r.kind, r.targets, a.value.0, a.value.1)])
  }

  // ---------------------------------------------------------------- events

  ghost predicate Attached(s: State, k: int, p: int, owner: nat, serial: nat) {
    && 0 <= k < |s.queue| && 0 <= p < |s.queue[k].pairs|
    && s.queue[k].pairs[p].owner == owner && s.queue[k].pairs[p].serial == serial
  }

  /** Every pair has its three slots. */
  ghost predicate Slotted(s: State) {
    forall k, p :: 0 <= k < |s.queue| && 0 <= p < |s.queue[k].pairs| ==> |s.queue[k].pairs[p].slots| == MAX_NUM_RESOLVED
  }

  /** A reply or a timeout reaches its handler only while the handle is active, wherever the pair or
      the request is by then. */
  ghost function Step(s: State, e: Event): State
    requires Slotted(s)
  {
    match e
    case Address(_, _, _, _, _, _) => OnAddress(s, e)
    case Tick => s.(sources := Aged(s.sources))
    case Dumped => s.(dumped := true)
    case Resolve(_, _, _, _) => OnResolve(s, e)
    case Reply(owner, serial, good, records) =>
      if exists k, p :: Attached(s, k, p, owner, serial) && s.queue[k].pairs[p].listening then
        var k, p :| Attached(s, k, p, owner, serial) && s.queue[k].pairs[p].listening;
        OnReply(s, k, p, good, records)
      else if exists p :: p in s.deleted && p.owner == owner && p.serial == serial && p.listening then
        var p :| p in s.deleted && p.owner == owner && p.serial == serial && p.listening;
        OnStrayReply(s, p, good, records)
      else s
    case Timer(id) =>
      if exists k :: 0 <= k < |s.queue| && s.queue[k].id == id && s.queue[k].timer then
        var k :| 0 <= k < |s.queue| && s.queue[k].id == id && s.queue[k].timer;
        OnTimer(s, k)
      else if exists r :: r in s.dead && r.id == id && r.timer then
        var r :| r in s.dead && r.id == id && r.timer;
        OnDeadTimer(s, r)
      else s
    case TimerClosed(id) => s.(dead := set r | r in s.dead && r.id != id)
    case PairClosed(owner, serial) =>
      s.(deleted := set p | p in s.deleted && (p.listening || p.owner != owner || p.serial != serial))
  }
}
