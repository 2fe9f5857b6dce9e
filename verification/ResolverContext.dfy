/**
 The resolver and the address list in the source's own form: loops over the lists, fields updated
 in place, each step proved equal to the step of the machine.
 */
module ResolverContext {
  import opened Types
  import opened DnsReplies
  import opened Resolver
  import opened ResolverProofs

  /** The test of nt_resolver_delete_pairs, made on the address the pair points to. */
  lemma DoomedIs(sources: seq<Source>, next: nat, f: Family, a: nat, p: Pair)
    requires SourcesOk(sources, next) && Listed(sources, p.src)
    ensures Doomed(sources, f, a, p) <==> SourceOf(sources, p.src).family == f && SourceOf(sources, p.src).ip == a
  {
    var s := SourceOf(sources, p.src);
    var k :| 0 <= k < |sources| && sources[k] == s;
  }

  method FindSource(sources: seq<Source>, f: Family, i: nat, a: nat) returns (r: Option<nat>)
    ensures r == IndexOf(sources, f, i, a)
  {
    var k := 0;
    while k < |sources|
      invariant k <= |sources|
      invariant IndexOf(sources, f, i, a) == Shifted(IndexOf(sources[k..], f, i, a), k)
    {
      if sources[k].Is(f, i, a) {
        return Some(k);
      }
      assert sources[k..][1..] == sources[k + 1..];
      k := k + 1;
    }
    return None;
  }

  function Shifted(r: Option<nat>, k: nat): Option<nat> { if r.Some? then Some(r.value + k) else None }

  /** nt_resolver_delete_pairs: what stays, and what goes to the deleted pairs. */
  method DeletePairs(sources: seq<Source>, ghost next: nat, f: Family, a: nat, pairs: seq<Pair>)
    returns (kept: seq<Pair>, gone: set<Pair>)
    requires SourcesOk(sources, next) && Anchored(sources, pairs)
    ensures kept == Survivors(sources, f, a, pairs) && gone == Removed(sources, f, a, pairs)
  {
    kept, gone := [], {};
    for k := 0 to |pairs|
      invariant kept == Survivors(sources, f, a, pairs[..k]) && gone == Removed(sources, f, a, pairs[..k])
    {
      var src := SourceOf(sources, pairs[k].src);
      DoomedIs(sources, next, f, a, pairs[k]);
      assert pairs[..k + 1][..k] == pairs[..k];
      if src.family == f && src.ip == a {
        gone := gone + {Stopped(pairs[k])};
      } else {
        kept := kept + [pairs[k]];
      }
    }
    assert pairs[..|pairs|] == pairs;
  }

  /** All requests of the queue in turn. */
  method DeleteFromAll(sources: seq<Source>, ghost next: nat, f: Family, a: nat, queue: seq<Request>)
    returns (q: seq<Request>, gone: set<Pair>)
    requires SourcesOk(sources, next) && forall k :: 0 <= k < |queue| ==> Anchored(sources, queue[k].pairs)
    ensures q == WithoutPairs(sources, queue, f, a) && gone == AllRemoved(sources, queue, |queue|, f, a)
  {
    q, gone := [], {};
    for k := 0 to |queue|
      invariant |q| == k && gone == AllRemoved(sources, queue, k, f, a)
      invariant forall j :: 0 <= j < k ==> q[j] == queue[j].(pairs := Survivors(sources, f, a, queue[j].pairs))
    {
      var kept, lost := DeletePairs(sources, next, f, a, queue[k].pairs);
      q, gone := q + [queue[k].(pairs := kept)], gone + lost;
    }
  }

  /** The slots of one pair, the latest in front. */
  method AddSlots(src: Source, slots: seq<Option<nat>>) returns (added: seq<Res>)
    requires |slots| == MAX_NUM_RESOLVED
    ensures added == SlotResults(src, slots, 0)
  {
    added := [];
    var i := 0;
    while i < MAX_NUM_RESOLVED && slots[i].Some? && !src.Deprecated()
      invariant i <= MAX_NUM_RESOLVED
      invariant SlotResults(src, slots, 0) == SlotResults(src, slots, i) + added
    {
      ghost var rest := SlotResults(src, slots, i + 1);
      assert (rest + [Res(src, slots[i].value)]) + added == rest + ([Res(src, slots[i].value)] + added);
      added := [Res(src, slots[i].value)] + added;
      i := i + 1;
    }
    assert SlotResults(src, slots, i) == [];
  }

  method PopulateResults(sources: seq<Source>, pairs: seq<Pair>) returns (results: seq<Res>)
    requires Anchored(sources, pairs) && PairsOk(pairs)
    ensures results == PairResults(sources, pairs, |pairs|)
  {
    results := [];
    for n := 0 to |pairs|
      invariant results == PairResults(sources, pairs, n)
    {
      var added := AddSlots(SourceOf(sources, pairs[n].src), pairs[n].slots);
      results := added + results;
    }
  }

  /** One target with every usable source, in front of the results so far. */
  method AddTarget(sources: seq<Source>, r: Request, target: nat, before: seq<Res>) returns (results: seq<Res>)
    ensures results == ForTarget(sources, r, target) + before
  {
    results := before;
    var k := 0;
    while k < |sources|
      invariant k <= |sources|
      invariant ForTarget(sources, r, target) + before == ForTarget(sources[k..], r, target) + results
    {
      var s := sources[k];
      ghost var rest := ForTarget(sources[k + 1..], r, target);
      assert sources[k..][0] == s && sources[k..][1..] == sources[k + 1..];
      if !s.Deprecated() && !(r.kind == Literal && r.family != Some(s.family)) {
        assert (rest + [Res(s, target)]) + results == rest + ([Res(s, target)] + results);
        results := [Res(s, target)] + results;
      }
      k := k + 1;
    }
  }

  method PopulateDirect(sources: seq<Source>, r: Request) returns (results: seq<Res>)
    ensures results == DirectResults(sources, r, r.targets)
  {
    results := [];
    var t := 0;
    while t < |r.targets|
      invariant t <= |r.targets|
      invariant DirectResults(sources, r, r.targets) == DirectResults(sources, r, r.targets[t..]) + results
    {
      var target := r.targets[t];
      ghost var before, rest := results, DirectResults(sources, r, r.targets[t + 1..]);
      results := AddTarget(sources, r, target, results);
      assert r.targets[t..][0] == target && r.targets[t..][1..] == r.targets[t + 1..];
      assert (rest + ForTarget(sources, r, target)) + before == rest + results;
      t := t + 1;
    }
  }

  class Context {
    var sources: seq<Source>
    var nextSource: nat
    var queue: seq<Request>
    var dead: set<Request>
    var deleted: set<Pair>
    var nextRequest: nat
    var callbacks: seq<Callback>
    var dumped: bool

    ghost function Model(): State
      reads this
    {
      State(sources, nextSource, queue, dead, deleted, nextRequest, callbacks, dumped, false)
    }

    constructor ()
      ensures Model() == Fresh() && Inv(Model())
    {
      sources, nextSource, queue, nextRequest, callbacks, dumped := [], 0, [], 0, [], false;
      dead, deleted := {}, {};
    }

    /** neat_resolver_handle_deladdr: all requests, before the address goes. */
    method HandleDeletedAddress(f: Family, a: nat)
      requires Inv(Model())
      modifies this`queue, this`deleted
      ensures queue == WithoutPairs(sources, old(queue), f, a)
      ensures deleted == old(deleted) + AllRemoved(sources, old(queue), |old(queue)|, f, a)
    {
      forall k | 0 <= k < |queue| ensures Anchored(sources, queue[k].pairs) {
        assert RequestOk(sources, queue[k]);
      }
      var q, gone := DeleteFromAll(sources, nextSource, f, a, queue);
      queue, deleted := q, deleted + gone;
    }

    /** neat_resolver_handle_newaddr. */
    method HandleNewAddress(s: Source, made: seq<nat>)
      modifies this`queue
      ensures queue == WithPairs(old(queue), s, made)
    {
      if s.Deprecated() {
        return;
      }
      var k := 0;
      while k < |queue|
        invariant k <= |queue| == |old(queue)|
        invariant forall j :: 0 <= j < k ==> queue[j] == WithPairs(old(queue), s, made)[j]
        invariant forall j :: k <= j < |queue| ==> queue[j] == old(queue)[j]
      {
        if Wants(queue[k], s) {
          queue := queue[k := AddPairs(queue[k], s.id, Made(made, k))];
        }
        k := k + 1;
      }
    }

    /** nt_addr_update_src_list. */
    method UpdateSourceList(e: Event)
      requires Inv(Model()) && e.Address?
      modifies this
      ensures Model() == OnAddress(old(Model()), e) && Inv(Model())
    {
      StepKeeps(Model(), e);
      var at := FindSource(sources, e.family, e.ifIdx, e.ip);
      if at.Some? {
        if !e.added {
          HandleDeletedAddress(e.family, e.ip);
          sources := sources[..at.value] + sources[at.value + 1..];
        } else if e.family == V6 {
          sources := sources[at.value := sources[at.value].(pref := e.pref)];
        }
        return;
      }
      var src := Source(nextSource, e.ifIdx, e.family, e.ip, e.pref);
      sources := [src] + sources;
      nextSource := nextSource + 1;
      HandleNewAddress(src, e.made);
    }

    /** nt_addr_lifetime_timeout_cb. */
    method LifetimeTimeout()
      requires Inv(Model())
      modifies this`sources
      ensures Model() == old(Model()).(sources := Aged(old(sources))) && Inv(Model())
    {
      StepKeeps(Model(), Tick);
      var k := 0;
      while k < |sources|
        invariant k <= |sources| == |old(sources)|
        invariant forall j :: 0 <= j < k ==> sources[j] == Aged(old(sources))[j]
        invariant forall j :: k <= j < |sources| ==> sources[j] == old(sources)[j]
      {
        var s := sources[k];
        if s.family == V6 && s.pref != UNLIMITED_LIFETIME && s.pref > 0 {
          sources := sources[k := s.(pref := s.pref - 1)];
        }
        k := k + 1;
      }
      assert sources == Aged(old(sources));
    }

    /** nt_start_request for a name: the pairs of every usable source. */
    method StartRequest(r: Request, made: seq<nat>) returns (q: Request)
      ensures q == FirstPairs(sources, |sources|, r, made)
    {
      q := r;
      for n := 0 to |sources|
        invariant q == FirstPairs(sources, n, r, made)
      {
        if Wants(r, sources[n]) && !sources[n].Deprecated() {
          q := AddPairs(q, sources[n].id, Made(made, n));
        }
      }
    }

    /** nt_resolve. */
    method ResolveName(e: Event)
      requires Inv(Model()) && e.Resolve?
      modifies this
      ensures Model() == OnResolve(old(Model()), e) && Inv(Model())
    {
      ResolveKeeps(Model(), e);
      var targets := if e.kind == Literal then e.targets else if e.kind == Localhost then [0] else [];
      var r := Request(nextRequest, e.wanted, e.kind, targets, [], 0, false, true);
      if e.kind == Name {
        r := StartRequest(r, e.made);
      }
      queue, nextRequest := queue + [r], nextRequest + 1;
    }

    /** neat_resolver_dns_recv_cb on the pair its handle points to. */
    method Receive(k: nat, p: nat, good: bool, records: seq<Option<nat>>)
      requires Inv(Model()) && k < |queue| && p < |queue[k].pairs|
      modifies this`queue
      ensures Model() == OnReply(old(Model()), k, p, good, records) && Inv(Model())
    {
      ReplyKeeps(Model(), k, p, good, records);
      assert RequestOk(sources, queue[k]);
      var r := queue[k];
      if !good {
        r := r.(timer := true, rearmed := true);
      } else {
        var pairs, stored := TakeReply(r.pairs, p, records);
        r := r.(pairs := pairs);
        if stored > 0 && !r.rearmed {
          r := r.(timer := true, rearmed := true);
        }
      }
      queue := queue[k := r];
    }

    /** nt_resolver_request_cleanup: each pair stops and goes to the deleted ones, the timer is
        stopped, and the request moves to the dead ones. */
    method CleanUp(k: nat)
      requires k < |queue|
      modifies this`queue, this`dead, this`deleted
      ensures queue == old(queue)[..k] + old(queue)[k + 1..]
      ensures dead == old(dead) + {Cleaned(old(queue)[k])}
      ensures deleted == old(deleted) + AllStopped(old(queue)[k].pairs, |old(queue)[k].pairs|)
    {
      var r := queue[k];
      for n := 0 to |r.pairs|
        invariant queue == old(queue) && dead == old(dead)
        invariant deleted == old(deleted) + AllStopped(r.pairs, n)
      {
        deleted := deleted + {Stopped(r.pairs[n])};
      }
      r := r.(pairs := [], timer := false);
      queue, dead := queue[..k] + queue[k + 1..], dead + {r};
    }

    method Finish(k: nat, code: Code, results: seq<Res>)
      requires k < |queue|
      modifies this
      ensures Model() == Done(old(Model()), k, code, results)
    {
      callbacks := callbacks + [Callback(queue[k].id, queue[k].kind, queue[k].targets, code, results)];
      CleanUp(k);
    }

    /** nt_resolver_timeout_shared. */
    method Timeout(k: nat)
      requires Inv(Model()) && k < |queue|
      modifies this
      ensures Model() == OnTimer(old(Model()), k) && Inv(Model())
    {
      TimerKeeps(Model(), k);
      assert RequestOk(sources, queue[k]);
      var r := queue[k];
      if r.kind == Name && !r.rearmed {
        Finish(k, TimedOut, []);
        return;
      }
      if r.kind != Name && sources == [] {
        if dumped {
          Finish(k, Error, []);
        } else {
          queue := queue[k := r.(timer := true)];
        }
        return;
      }
      var results;
      if r.kind == Name {
        results := PopulateResults(sources, r.pairs);
      } else {
        results := PopulateDirect(sources, r);
      }
      Finish(k, if results == [] then Error else Ok, results);
    }
  }
}
