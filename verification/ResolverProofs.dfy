/**
 What every run of the resolver keeps: pairs point to listed addresses, slots are distinct,
 every request is called back at most once, and results repeat nothing.
 */
module ResolverProofs {
  import opened Types
  import opened DnsReplies
  import opened Resolver

  // ---------------------------------------------------------------- invariants

  /** The source list holds each object and each (interface, family, address) once. */
  ghost predicate SourcesOk(sources: seq<Source>, next: nat) {
    && (forall k :: 0 <= k < |sources| ==> sources[k].id < next)
    && (forall j, k :: 0 <= j < |sources| && 0 <= k < |sources| && j != k ==>
          sources[j].id != sources[k].id && !sources[j].Is(sources[k].family, sources[k].ifIdx, sources[k].ip))
  }

  /** Every pair's address is still in the source list. */
  ghost predicate Anchored(sources: seq<Source>, pairs: seq<Pair>) {
    forall p :: 0 <= p < |pairs| ==> Listed(sources, pairs[p].src)
  }

  /** A queued request: its timer is armed, and its pairs are its own, listen, point to listed
      addresses and have distinct slots. */
  ghost predicate RequestOk(sources: seq<Source>, r: Request) {
    && r.timer
    && Anchored(sources, r.pairs) && PairsOk(r.pairs)
    && forall p :: 0 <= p < |r.pairs| ==> r.pairs[p].owner == r.id && r.pairs[p].listening
  }

  ghost predicate QueueOk(sources: seq<Source>, queue: seq<Request>) {
    forall k :: 0 <= k < |queue| ==> RequestOk(sources, queue[k])
  }

  /** Dead requests have no timer and no pairs, and deleted pairs do not listen. */
  ghost predicate Buried(s: State) {
    && (forall r :: r in s.dead ==> !r.timer && r.pairs == [] && Called(s, r.id))
    && (forall p :: p in s.deleted ==> !p.listening)
  }

  /** Localhost lookups have one target. */
  ghost predicate Aimed(queue: seq<Request>) {
    forall k :: 0 <= k < |queue| && queue[k].kind == Localhost ==> |queue[k].targets| == 1
  }

  ghost predicate Queued(s: State, id: nat) { exists k :: 0 <= k < |s.queue| && s.queue[k].id == id }

  ghost predicate Called(s: State, id: nat) { exists k :: 0 <= k < |s.callbacks| && s.callbacks[k].req == id }

  /** Every request ever made is either queued or was called back, and neither twice. */
  ghost predicate Accounted(s: State) {
    && (forall k :: 0 <= k < |s.queue| ==> s.queue[k].id < s.nextRequest)
    && (forall j, k :: 0 <= j < k < |s.queue| ==> s.queue[j].id != s.queue[k].id)
    && (forall j, k :: 0 <= j < k < |s.callbacks| ==> s.callbacks[j].req != s.callbacks[k].req)
    && (forall j, k :: 0 <= j < |s.callbacks| && 0 <= k < |s.queue| ==> s.callbacks[j].req != s.queue[k].id)
    && (forall k :: 0 <= k < |s.callbacks| ==> s.callbacks[k].req < s.nextRequest)
    && (forall id: nat :: id < s.nextRequest ==> Queued(s, id) || Called(s, id))
  }

  /** Results differ in interface, source or destination, and no source is deprecated. */
  ghost predicate Clean(results: seq<Res>) {
    && (forall i :: 0 <= i < |results| ==> !results[i].source.Deprecated())
    && (forall i, j :: 0 <= i < j < |results| ==> Differ(results[i], results[j]))
  }

  predicate Differ(a: Res, b: Res) {
    !a.source.Is(b.source.family, b.source.ifIdx, b.source.ip) || a.dst != b.dst
  }

  /** Results of names and localhost repeat nothing; those of a literal only what its targets repeat. */
  ghost predicate CallbackOk(c: Callback) {
    if c.kind == Literal then Clean(c.results) <==> Distinct(c.targets) || c.results == []
    else Clean(c.results)
  }

  ghost predicate Inv(s: State) {
    && SourcesOk(s.sources, s.nextSource)
    && QueueOk(s.sources, s.queue) && Aimed(s.queue)
    && Accounted(s)
    && Buried(s)
    && !s.fault
    && forall k :: 0 <= k < |s.callbacks| ==> CallbackOk(s.callbacks[k])
  }

  // ---------------------------------------------------------------- pairs

  lemma AddPairsOk(sources: seq<Source>, r: Request, src: nat, n: nat)
    requires RequestOk(sources, r) && Listed(sources, src)
    ensures RequestOk(sources, AddPairs(r, src, n))
  {
    var added, next := Copies(r, src, n), AddPairs(r, src, n).pairs;
    assert forall p :: n <= p < |next| ==> next[p] == r.pairs[p - n];
    FreshPairsOk(added, r.pairs);
  }

  lemma FreshPairsOk(added: seq<Pair>, pairs: seq<Pair>)
    requires PairsOk(pairs) && forall i :: 0 <= i < |added| ==> added[i].slots == [None, None, None]
    ensures PairsOk(added + pairs)
  {
    var next, n := added + pairs, |added|;
    forall p, q, i, j | 0 <= p < |next| && 0 <= q < |next| && 0 <= i < |next[p].slots| && 0 <= j < |next[q].slots|
        && (p != q || i != j)
      ensures Apart(next[p], i, next[q], j)
    {
      if p >= n && q >= n {
        assert Apart(pairs[p - n], i, pairs[q - n], j);
      }
    }
  }

  lemma FrontOk(pairs: seq<Pair>, n: nat)
    requires PairsOk(pairs) && n <= |pairs|
    ensures PairsOk(pairs[..n])
  {
    forall p, q, i, j | 0 <= p < n && 0 <= q < n && 0 <= i < |pairs[p].slots| && 0 <= j < |pairs[q].slots|
        && (p != q || i != j)
      ensures Apart(pairs[..n][p], i, pairs[..n][q], j)
    {
      assert Apart(pairs[p], i, pairs[q], j);
    }
  }

  /** Nothing the pair has is in the other pairs. */
  ghost predicate Foreign(pairs: seq<Pair>, x: Pair) {
    forall p, i, j :: 0 <= p < |pairs| && 0 <= i < |pairs[p].slots| && 0 <= j < |x.slots| ==>
      Apart(pairs[p], i, x, j) && Apart(x, j, pairs[p], i)
  }

  lemma OneMoreOk(pairs: seq<Pair>, x: Pair)
    requires PairsOk(pairs) && PairsOk([x]) && Foreign(pairs, x)
    ensures PairsOk(pairs + [x])
  {
    var next, n := pairs + [x], |pairs|;
    forall p, q, i, j | 0 <= p < |next| && 0 <= q < |next| && 0 <= i < |next[p].slots| && 0 <= j < |next[q].slots|
        && (p != q || i != j)
      ensures Apart(next[p], i, next[q], j)
    {
      if p < n && q < n {
        assert Apart(pairs[p], i, pairs[q], j);
      } else if p == n && q == n {
        assert Apart([x][0], i, [x][0], j);
      } else if p < n {
        assert Apart(pairs[p], i, x, j);
      } else {
        assert Apart(x, i, pairs[q], j);
      }
    }
  }

  lemma LastIsForeign(pairs: seq<Pair>, some: seq<Pair>)
    requires PairsOk(pairs) && pairs != [] && forall i :: 0 <= i < |some| ==> some[i] in pairs[..|pairs| - 1]
    ensures Foreign(some, pairs[|pairs| - 1]) && PairsOk([pairs[|pairs| - 1]])
  {
    var n := |pairs| - 1;
    forall p, i, j | 0 <= p < |some| && 0 <= i < |some[p].slots| && 0 <= j < |pairs[n].slots|
      ensures Apart(some[p], i, pairs[n], j) && Apart(pairs[n], j, some[p], i)
    {
      var q :| 0 <= q < n && pairs[..n][q] == some[p];
      assert Apart(pairs[q], i, pairs[n], j) && Apart(pairs[n], j, pairs[q], i);
    }
    forall i, j | 0 <= i < |pairs[n].slots| && 0 <= j < |pairs[n].slots| && i != j
      ensures Apart([pairs[n]][0], i, [pairs[n]][0], j) {
      assert Apart(pairs[n], i, pairs[n], j);
    }
  }

  lemma {:induction false} SurvivorsOk(sources: seq<Source>, f: Family, a: nat, pairs: seq<Pair>)
    requires PairsOk(pairs)
    ensures PairsOk(Survivors(sources, f, a, pairs))
    decreases |pairs|
  {
    if pairs != [] {
      var n := |pairs| - 1;
      FrontOk(pairs, n);
      SurvivorsOk(sources, f, a, pairs[..n]);
      var r := Survivors(sources, f, a, pairs[..n]);
      LastIsForeign(pairs, r);
      OneMoreOk(r, pairs[n]);
    }
  }

  lemma AnchoredMono(sources: seq<Source>, next: seq<Source>, queue: seq<Request>)
    requires QueueOk(sources, queue)
    requires forall id: nat :: Listed(sources, id) ==> Listed(next, id)
    ensures QueueOk(next, queue)
  {
  }

  // ---------------------------------------------------------------- address events

  /** A surviving pair does not point to the address that goes. */
  lemma SurvivorsAnchored(s: State, at: nat, pairs: seq<Pair>)
    requires Inv(s) && at < |s.sources| && Anchored(s.sources, pairs)
    ensures Anchored(s.sources[..at] + s.sources[at + 1..],
                     Survivors(s.sources, s.sources[at].family, s.sources[at].ip, pairs))
  {
    var next := s.sources[..at] + s.sources[at + 1..];
    var kept := Survivors(s.sources, s.sources[at].family, s.sources[at].ip, pairs);
    forall p | 0 <= p < |kept| ensures Listed(next, kept[p].src) {
      assert kept[p] in pairs && Listed(s.sources, kept[p].src);
      var k :| 0 <= k < |s.sources| && s.sources[k].id == kept[p].src;
      assert k != at;
      assert next[if k < at then k else k - 1].id == kept[p].src;
    }
  }

  lemma RemovedOk(sources: seq<Source>, next: nat, at: nat)
    requires SourcesOk(sources, next) && at < |sources|
    ensures SourcesOk(sources[..at] + sources[at + 1..], next)
  {
    var rest := sources[..at] + sources[at + 1..];
    assert forall k :: 0 <= k < |rest| ==> rest[k] == sources[if k < at then k else k + 1];
  }

  lemma SurvivorKept(s: State, at: nat, k: nat)
    requires Inv(s) && at < |s.sources| && k < |s.queue|
    ensures var r := s.queue[k];
            RequestOk(s.sources[..at] + s.sources[at + 1..],
                      r.(pairs := Survivors(s.sources, s.sources[at].family, s.sources[at].ip, r.pairs)))
  {
    var r, f, a := s.queue[k], s.sources[at].family, s.sources[at].ip;
    assert RequestOk(s.sources, r);
    SurvivorsAnchored(s, at, r.pairs);
    SurvivorsOk(s.sources, f, a, r.pairs);
    var kept := Survivors(s.sources, f, a, r.pairs);
    forall p | 0 <= p < |kept| ensures kept[p].owner == r.id && kept[p].listening {
      assert kept[p] in r.pairs;
    }
  }

  lemma DeleteKeeps(s: State, at: nat, e: Event)
    requires Inv(s) && e.Address? && !e.added && IndexOf(s.sources, e.family, e.ifIdx, e.ip) == Some(at)
    ensures Inv(OnAddress(s, e))
  {
    var s' := OnAddress(s, e);
    RemovedOk(s.sources, s.nextSource, at);
    forall k | 0 <= k < |s'.queue| ensures RequestOk(s'.sources, s'.queue[k]) {
      SurvivorKept(s, at, k);
    }
    QueueRenamed(s, s');
    BuriedSame(s, s');
  }

  lemma BuriedSame(s: State, s': State)
    requires Buried(s) && s'.dead <= s.dead && s.callbacks <= s'.callbacks
    requires forall p :: p in s'.deleted ==> !p.listening
    ensures Buried(s')
  {
    forall r | r in s'.dead ensures Called(s', r.id) {
      var k :| 0 <= k < |s.callbacks| && s.callbacks[k].req == r.id;
      assert s'.callbacks[k].req == r.id;
    }
  }

  /** Changing the pairs of queued requests changes no request's standing. */
  lemma QueueRenamed(s: State, s': State)
    requires Accounted(s) && |s'.queue| == |s.queue| && s'.callbacks == s.callbacks && s'.nextRequest == s.nextRequest
    requires forall k :: 0 <= k < |s.queue| ==> s'.queue[k].id == s.queue[k].id
    ensures Accounted(s')
  {
    forall id: nat | id < s'.nextRequest ensures Queued(s', id) || Called(s', id) {
      if Queued(s, id) {
        var k :| 0 <= k < |s.queue| && s.queue[k].id == id;
        assert s'.queue[k].id == id;
      } else {
        assert Called(s, id);
      }
    }
  }

  lemma ListedMore(sources: seq<Source>, src: Source)
    ensures forall id: nat :: Listed(sources, id) ==> Listed([src] + sources, id)
  {
    forall id: nat | Listed(sources, id) ensures Listed([src] + sources, id) {
      var k :| 0 <= k < |sources| && sources[k].id == id;
      assert ([src] + sources)[k + 1].id == id;
    }
  }

  lemma AddKeeps(s: State, e: Event)
    requires Inv(s) && e.Address? && IndexOf(s.sources, e.family, e.ifIdx, e.ip).None?
    ensures Inv(OnAddress(s, e))
  {
    var s' := OnAddress(s, e);
    var src := s'.sources[0];
    assert forall k :: 1 <= k < |s'.sources| ==> s'.sources[k] == s.sources[k - 1];
    ListedMore(s.sources, src);
    AnchoredMono(s.sources, s'.sources, s.queue);
    assert Listed(s'.sources, src.id);
    forall k | 0 <= k < |s'.queue| ensures RequestOk(s'.sources, s'.queue[k]) {
      assert RequestOk(s'.sources, s.queue[k]);
      AddPairsOk(s'.sources, s.queue[k], src.id, Made(e.made, k));
    }
    QueueRenamed(s, s');
    BuriedSame(s, s');
  }

  lemma SamePlacesKeep(s: State, next: seq<Source>)
    requires Inv(s) && |next| == |s.sources|
    requires forall k :: 0 <= k < |next| ==> next[k] == s.sources[k].(pref := next[k].pref)
    ensures Inv(s.(sources := next))
  {
    forall id: nat | Listed(s.sources, id) ensures Listed(next, id) {
      var k :| 0 <= k < |s.sources| && s.sources[k].id == id;
      assert next[k].id == id;
    }
    AnchoredMono(s.sources, next, s.queue);
    QueueRenamed(s, s.(sources := next));
    BuriedSame(s, s.(sources := next));
  }

  // ---------------------------------------------------------------- requests

  lemma {:induction false} FirstPairsOk(sources: seq<Source>, n: nat, r: Request, made: seq<nat>)
    requires n <= |sources| && RequestOk(sources, r)
    ensures RequestOk(sources, FirstPairs(sources, n, r, made))
  {
    if n > 0 {
      FirstPairsOk(sources, n - 1, r, made);
      assert Listed(sources, sources[n - 1].id);
      AddPairsOk(sources, FirstPairs(sources, n - 1, r, made), sources[n - 1].id, Made(made, n - 1));
    }
  }

  lemma QueuedMore(s: State, s': State, r: Request)
    requires Accounted(s) && s'.queue == s.queue + [r] && r.id == s.nextRequest && s'.callbacks == s.callbacks
    requires s'.nextRequest == s.nextRequest + 1
    ensures Accounted(s')
  {
    forall id: nat | id < s'.nextRequest ensures Queued(s', id) || Called(s', id) {
      if id == s.nextRequest {
        assert s'.queue[|s.queue|].id == id;
      } else if Queued(s, id) {
        var k :| 0 <= k < |s.queue| && s.queue[k].id == id;
        assert s'.queue[k].id == id;
      } else {
        assert Called(s, id);
      }
    }
  }

  lemma ResolveKeeps(s: State, e: Event)
    requires Inv(s) && e.Resolve?
    ensures Inv(OnResolve(s, e))
  {
    var s' := OnResolve(s, e);
    var r := s'.queue[|s.queue|];
    var bare := r.(pairs := [], made := 0);
    assert RequestOk(s.sources, bare);
    FirstPairsOk(s.sources, |s.sources|, bare, e.made);
    assert RequestOk(s.sources, r);
    QueuedMore(s, s', r);
    BuriedSame(s, s');
  }

  lemma TakenOk(sources: seq<Source>, r: Request, p: nat, records: seq<Option<nat>>)
    requires RequestOk(sources, r) && p < |r.pairs|
    ensures var q := r.(pairs := TakeRecords(r.pairs, p, 0, records).0);
            RequestOk(sources, q) && RequestOk(sources, Rearmed(q))
  {
    TakeRecordsKeeps(r.pairs, p, 0, records);
  }

  lemma ReplyKeeps(s: State, k: nat, p: nat, good: bool, records: seq<Option<nat>>)
    requires Inv(s) && k < |s.queue| && p < |s.queue[k].pairs|
    ensures Inv(OnReply(s, k, p, good, records))
  {
    assert RequestOk(s.sources, s.queue[k]) && Anchored(s.sources, s.queue[k].pairs);
    TakenOk(s.sources, s.queue[k], p, records);
    QueueRenamed(s, OnReply(s, k, p, good, records));
    BuriedSame(s, OnReply(s, k, p, good, records));
  }

  // ---------------------------------------------------------------- results

  lemma CleanConcat(a: seq<Res>, b: seq<Res>)
    requires Clean(a) && Clean(b)
    requires forall i, j :: 0 <= i < |a| && 0 <= j < |b| ==> Differ(a[i], b[j])
    ensures Clean(a + b)
  {
  }

  /** A result comes from a slot of one of the first `n` pairs. */
  ghost predicate From(sources: seq<Source>, pairs: seq<Pair>, n: nat, r: Res)
    requires n <= |pairs| && Anchored(sources, pairs)
  {
    exists p, i :: 0 <= p < n && 0 <= i < |pairs[p].slots| && r.source == SourceOf(sources, pairs[p].src)
                   && pairs[p].slots[i] == Some(r.dst)
  }

  ghost predicate SlotsFrom(src: Source, slots: seq<Option<nat>>, i: nat, rs: seq<Res>) {
    forall r :: 0 <= r < |rs| ==> rs[r].source == src && exists j :: i <= j < |slots| && slots[j] == Some(rs[r].dst)
  }

  lemma {:induction false} SlotsClean(src: Source, slots: seq<Option<nat>>, i: nat)
    requires i <= |slots|
    requires forall j, k :: 0 <= j < k < |slots| && slots[j].Some? ==> slots[j] != slots[k]
    ensures Clean(SlotResults(src, slots, i)) && SlotsFrom(src, slots, i, SlotResults(src, slots, i))
    decreases |slots| - i
  {
    if i < |slots| && slots[i].Some? && !src.Deprecated() {
      SlotsClean(src, slots, i + 1);
      var rest := SlotResults(src, slots, i + 1);
      assert SlotsFrom(src, slots, i, rest);
      CleanConcat(rest, [Res(src, slots[i].value)]);
    }
  }

  lemma PairSlotsDiffer(pairs: seq<Pair>, p: nat)
    requires PairsOk(pairs) && p < |pairs|
    ensures forall j, k :: 0 <= j < k < |pairs[p].slots| && pairs[p].slots[j].Some? ==>
                pairs[p].slots[j] != pairs[p].slots[k]
  {
    forall j, k | 0 <= j < k < |pairs[p].slots| && pairs[p].slots[j].Some?
      ensures pairs[p].slots[j] != pairs[p].slots[k] {
      assert Apart(pairs[p], j, pairs[p], k);
    }
  }

  /** Two listed addresses agree in interface, family and address only if they are the same one. */
  lemma SameSource(sources: seq<Source>, next: nat, a: Source, b: Source)
    requires SourcesOk(sources, next) && a in sources && b in sources && a.Is(b.family, b.ifIdx, b.ip)
    ensures a == b
  {
    var j :| 0 <= j < |sources| && sources[j] == a;
    var k :| 0 <= k < |sources| && sources[k] == b;
  }

  lemma {:induction false} PairsClean(sources: seq<Source>, next: nat, pairs: seq<Pair>, n: nat)
    requires SourcesOk(sources, next) && PairsOk(pairs) && Anchored(sources, pairs) && n <= |pairs|
    ensures Clean(PairResults(sources, pairs, n))
    ensures forall i :: 0 <= i < |PairResults(sources, pairs, n)| ==>
                From(sources, pairs, n, PairResults(sources, pairs, n)[i])
  {
    if n > 0 {
      PairsClean(sources, next, pairs, n - 1);
      var p := pairs[n - 1];
      var src := SourceOf(sources, p.src);
      PairSlotsDiffer(pairs, n - 1);
      SlotsClean(src, p.slots, 0);
      var a, b := SlotResults(src, p.slots, 0), PairResults(sources, pairs, n - 1);
      forall i, j | 0 <= i < |a| && 0 <= j < |b| ensures Differ(a[i], b[j]) {
        assert From(sources, pairs, n - 1, b[j]);
        var q, y :| 0 <= q < n - 1 && 0 <= y < |pairs[q].slots| && b[j].source == SourceOf(sources, pairs[q].src)
                    && pairs[q].slots[y] == Some(b[j].dst);
        var x :| 0 <= x < |p.slots| && p.slots[x] == Some(a[i].dst);
        assert Apart(pairs[n - 1], x, pairs[q], y);
        if a[i].source.Is(b[j].source.family, b[j].source.ifIdx, b[j].source.ip) {
          SameSource(sources, next, a[i].source, b[j].source);
        }
      }
      CleanConcat(a, b);
      forall i | 0 <= i < |a + b| ensures From(sources, pairs, n, (a + b)[i]) {
        if i < |a| {
          var x :| 0 <= x < |p.slots| && p.slots[x] == Some(a[i].dst);
        } else {
          assert From(sources, pairs, n - 1, b[i - |a|]);
        }
      }
    }
  }

  /** The sources a literal or localhost lookup uses. */
  predicate Usable(r: Request, s: Source) {
    !s.Deprecated() && (r.kind == Literal ==> r.family == Some(s.family))
  }

  lemma {:induction false} TargetClean(sources: seq<Source>, next: nat, r: Request, target: nat)
    requires SourcesOk(sources, next)
    ensures Clean(ForTarget(sources, r, target))
    ensures forall i :: 0 <= i < |ForTarget(sources, r, target)| ==>
              ForTarget(sources, r, target)[i].source in sources && ForTarget(sources, r, target)[i].dst == target
    ensures forall k :: 0 <= k < |sources| && Usable(r, sources[k]) ==>
                Res(sources[k], target) in ForTarget(sources, r, target)
  {
    if sources != [] {
      var s, rest := sources[0], ForTarget(sources[1..], r, target);
      TargetClean(sources[1..], next, r, target);
      if Usable(r, s) {
        CleanConcat(rest, [Res(s, target)]);
      }
    }
  }

  lemma OneTargetClean(sources: seq<Source>, next: nat, r: Request, target: nat)
    requires SourcesOk(sources, next)
    ensures Clean(DirectResults(sources, r, [target]))
  {
    TargetClean(sources, next, r, target);
    assert DirectResults(sources, r, [target]) == DirectResults(sources, r, []) + ForTarget(sources, r, target);
    CleanConcat([], ForTarget(sources, r, target));
  }

  predicate Distinct(targets: seq<nat>) { forall i, j :: 0 <= i < j < |targets| ==> targets[i] != targets[j] }

  ghost predicate AnyUsable(sources: seq<Source>, r: Request) {
    exists k :: 0 <= k < |sources| && Usable(r, sources[k])
  }

  lemma {:induction false} NoneUsable(sources: seq<Source>, r: Request, target: nat)
    requires !AnyUsable(sources, r)
    ensures ForTarget(sources, r, target) == []
  {
    if sources != [] {
      assert !Usable(r, sources[0]);
      assert !AnyUsable(sources[1..], r);
      NoneUsable(sources[1..], r, target);
    }
  }

  /** Every target of a literal comes with every usable source. */
  lemma {:induction false} DirectMembers(sources: seq<Source>, next: nat, r: Request, targets: seq<nat>)
    requires SourcesOk(sources, next)
    ensures forall i :: 0 <= i < |DirectResults(sources, r, targets)| ==>
                DirectResults(sources, r, targets)[i].dst in targets
    ensures forall k, t :: 0 <= k < |sources| && Usable(r, sources[k]) && 0 <= t < |targets| ==>
              Res(sources[k], targets[t]) in DirectResults(sources, r, targets)
  {
    if targets != [] {
      DirectMembers(sources, next, r, targets[1..]);
      TargetClean(sources, next, r, targets[0]);
      forall k, t | 0 <= k < |sources| && Usable(r, sources[k]) && 0 <= t < |targets|
        ensures Res(sources[k], targets[t]) in DirectResults(sources, r, targets)
      {
        if t > 0 {
          assert targets[t] == targets[1..][t - 1];
        }
      }
    }
  }

  /** The same result on both sides of a concatenation, or a repeat inside the front, spoils it. */
  lemma CleanParts(a: seq<Res>, b: seq<Res>)
    requires Clean(a + b)
    ensures Clean(a) && forall r :: r in a ==> r !in b
  {
    forall i, j | 0 <= i < j < |a| ensures Differ(a[i], a[j]) {
      assert Differ((a + b)[i], (a + b)[j]);
    }
    forall i | 0 <= i < |a| ensures !a[i].source.Deprecated() {
      assert (a + b)[i] == a[i];
    }
    forall r | r in a ensures r !in b {
      var i :| 0 <= i < |a| && a[i] == r;
      forall j | 0 <= j < |b| ensures b[j] != r {
        assert Differ((a + b)[i], (a + b)[|a| + j]);
      }
    }
  }

  /** The results of a literal repeat nothing exactly when its targets do not repeat, or no source
      is usable at all: the literal path has no check for duplicates. */
  lemma {:induction false} LiteralCleanIff(sources: seq<Source>, next: nat, r: Request, targets: seq<nat>)
    requires SourcesOk(sources, next)
    ensures Clean(DirectResults(sources, r, targets)) <==> Distinct(targets) || !AnyUsable(sources, r)
  {
    if targets != [] {
      var t, rest := targets[0], targets[1..];
      var a, b := DirectResults(sources, r, rest), ForTarget(sources, r, t);
      LiteralCleanIff(sources, next, r, rest);
      DirectMembers(sources, next, r, rest);
      TargetClean(sources, next, r, t);
      if !AnyUsable(sources, r) {
        NoneUsable(sources, r, t);
        assert a + b == a;
      } else {
        var k :| 0 <= k < |sources| && Usable(r, sources[k]);
        DistinctSplit(targets);
        if Distinct(targets) {
          CleanConcat(a, b);
        } else if Distinct(rest) {
          var i :| 0 <= i < |rest| && rest[i] == t;
          assert Res(sources[k], rest[i]) in a && Res(sources[k], t) in b;
          if Clean(a + b) { CleanParts(a, b); }
        } else if Clean(a + b) {
          CleanParts(a, b);
        }
      }
    }
  }

  lemma DistinctSplit(targets: seq<nat>)
    requires targets != []
    ensures Distinct(targets) <==> Distinct(targets[1..]) && targets[0] !in targets[1..]
  {
    var rest := targets[1..];
    if Distinct(rest) && targets[0] !in rest {
      forall i, j | 0 <= i < j < |targets| ensures targets[i] != targets[j] {
        assert targets[j] == rest[j - 1] && (i > 0 ==> targets[i] == rest[i - 1]);
      }
    }
  }

  lemma NoDirectResults(sources: seq<Source>, next: nat, r: Request, targets: seq<nat>)
    requires SourcesOk(sources, next)
    ensures DirectResults(sources, r, targets) == [] <==> targets == [] || !AnyUsable(sources, r)
    decreases |targets|
  {
    if targets != [] {
      NoDirectResults(sources, next, r, targets[1..]);
      if AnyUsable(sources, r) {
        var k :| 0 <= k < |sources| && Usable(r, sources[k]);
        TargetClean(sources, next, r, targets[0]);
        assert Res(sources[k], targets[0]) in ForTarget(sources, r, targets[0]);
      } else {
        NoneUsable(sources, r, targets[0]);
      }
    }
  }

  // ---------------------------------------------------------------- timers

  /** Nobody is lost when a request is answered. */
  lemma DoneCovers(s: State, k: nat, code: Code, results: seq<Res>, id: nat)
    requires Accounted(s) && k < |s.queue| && id < s.nextRequest
    ensures var s' := Done(s, k, code, results); Queued(s', id) || Called(s', id)
  {
    var s' := Done(s, k, code, results);
    if Queued(s, id) {
      var j :| 0 <= j < |s.queue| && s.queue[j].id == id;
      if j == k {
        assert s'.callbacks[|s.callbacks|].req == id;
      } else {
        assert s'.queue[if j < k then j else j - 1].id == id;
      }
    } else {
      assert Called(s, id);
      var j :| 0 <= j < |s.callbacks| && s.callbacks[j].req == id;
      assert s'.callbacks[j].req == id;
    }
  }

  lemma DoneAccounted(s: State, k: nat, code: Code, results: seq<Res>)
    requires Accounted(s) && k < |s.queue|
    ensures Accounted(Done(s, k, code, results))
  {
    var s' := Done(s, k, code, results);
    assert forall j :: 0 <= j < |s'.queue| ==> s'.queue[j] == s.queue[if j < k then j else j + 1];
    forall id: nat | id < s'.nextRequest ensures Queued(s', id) || Called(s', id) {
      DoneCovers(s, k, code, results, id);
    }
  }

  lemma DoneBuried(s: State, k: nat, code: Code, results: seq<Res>)
    requires Buried(s) && k < |s.queue|
    ensures Buried(Done(s, k, code, results))
  {
    var s' := Done(s, k, code, results);
    assert s'.callbacks[|s.callbacks|].req == s.queue[k].id;
    forall r | r in s'.dead ensures !r.timer && r.pairs == [] && Called(s', r.id) {
      if r in s.dead {
        var j :| 0 <= j < |s.callbacks| && s.callbacks[j].req == r.id;
        assert s'.callbacks[j].req == r.id;
      }
    }
  }

  lemma DoneKeeps(s: State, k: nat, code: Code, results: seq<Res>)
    requires Inv(s) && k < |s.queue|
    requires CallbackOk(Callback(s.queue[k].id, s.queue[k].kind, s.queue[k].targets, code, results))
    ensures Inv(Done(s, k, code, results))
  {
    var queue := Done(s, k, code, results).queue;
    DoneAccounted(s, k, code, results);
    DoneBuried(s, k, code, results);
    assert forall j :: 0 <= j < |queue| ==> queue[j] == s.queue[if j < k then j else j + 1];
  }

  /** Whatever a queued request is told is in order. */
  lemma AnswerOk(s: State, k: nat)
    requires Inv(s) && k < |s.queue|
    ensures Anchored(s.sources, s.queue[k].pairs)
    ensures var r, a := s.queue[k], Answer(s, s.queue[k]);
            a.Some? ==> CallbackOk(Callback(r.id, r.kind, r.targets, a.value.0, a.value.1))
  {
    var r := s.queue[k];
    assert RequestOk(s.sources, r);
    match r.kind
    case Name => PairsClean(s.sources, s.nextSource, r.pairs, |r.pairs|);
    case Localhost =>
      assert r.targets == [r.targets[0]];
      OneTargetClean(s.sources, s.nextSource, r, r.targets[0]);
    case Literal =>
      LiteralCleanIff(s.sources, s.nextSource, r, r.targets);
      NoDirectResults(s.sources, s.nextSource, r, r.targets);
  }

  lemma TimerKeeps(s: State, k: nat)
    requires Inv(s) && k < |s.queue|
    ensures Inv(OnTimer(s, k))
  {
    AnswerOk(s, k);
    var r := s.queue[k];
    var a := Answer(s, r);
    if a.Some? {
      DoneKeeps(s, k, a.value.0, a.value.1);
    } else {
      assert RequestOk(s.sources, r);
      assert s.queue[k := r.(timer := true)] == s.queue;
    }
  }

  // ---------------------------------------------------------------- runs

  /** Late events find nothing active: a deleted pair does not listen. */
  lemma ReplyEventKeeps(s: State, owner: nat, serial: nat, good: bool, records: seq<Option<nat>>)
    requires Inv(s)
    ensures Inv(Step(s, Reply(owner, serial, good, records)))
  {
    if exists k, p :: Attached(s, k, p, owner, serial) && s.queue[k].pairs[p].listening {
      var k, p :| Attached(s, k, p, owner, serial) && s.queue[k].pairs[p].listening
                  && Step(s, Reply(owner, serial, good, records)) == OnReply(s, k, p, good, records);
      ReplyKeeps(s, k, p, good, records);
    }
  }

  /** And a dead request has no timer. */
  lemma TimerEventKeeps(s: State, id: nat)
    requires Inv(s)
    ensures Inv(Step(s, Timer(id)))
  {
    if exists k :: 0 <= k < |s.queue| && s.queue[k].id == id && s.queue[k].timer {
      var k :| 0 <= k < |s.queue| && s.queue[k].id == id && s.queue[k].timer && Step(s, Timer(id)) == OnTimer(s, k);
      TimerKeeps(s, k);
    }
  }

  lemma ClosedKeeps(s: State, dead: set<Request>, deleted: set<Pair>)
    requires Inv(s) && dead <= s.dead && deleted <= s.deleted
    ensures Inv(s.(dead := dead, deleted := deleted))
  {
    QueueRenamed(s, s.(dead := dead, deleted := deleted));
    BuriedSame(s, s.(dead := dead, deleted := deleted));
  }

  lemma StepKeeps(s: State, e: Event)
    requires Inv(s)
    ensures Inv(Step(s, e))
  {
    match e
    case Address(added, f, i, a, _, _) =>
      var at := IndexOf(s.sources, f, i, a);
      if at.None? {
        AddKeeps(s, e);
      } else if !added {
        DeleteKeeps(s, at.value, e);
      } else {
        SamePlacesKeep(s, OnAddress(s, e).sources);
      }
    case Tick => SamePlacesKeep(s, Aged(s.sources));
    case Dumped =>
      QueueRenamed(s, s.(dumped := true));
      BuriedSame(s, s.(dumped := true));
    case Resolve(_, _, _, _) => ResolveKeeps(s, e);
    case Reply(owner, serial, good, records) => ReplyEventKeeps(s, owner, serial, good, records);
    case Timer(id) => TimerEventKeeps(s, id);
    case TimerClosed(_) => ClosedKeeps(s, Step(s, e).dead, s.deleted);
    case PairClosed(_, _) => ClosedKeeps(s, s.dead, Step(s, e).deleted);
  }

  /** The state after a run of the resolver, from an empty address list and an empty queue. */
  ghost function Run(events: seq<Event>): (s: State)
    ensures Inv(s)
    decreases |events|
  {
    if events == [] then Fresh()
    else
      var s := Run(events[..|events| - 1]);
      StepKeeps(s, events[|events| - 1]);
      Step(s, events[|events| - 1])
  }

  /** In every run, every pair of every queued lookup points to exactly one address of the list. */
  lemma NoDanglingSources(events: seq<Event>, k: nat, p: nat)
    requires k < |Run(events).queue| && p < |Run(events).queue[k].pairs|
    ensures var s := Run(events); var src := s.queue[k].pairs[p].src;
            exists i :: 0 <= i < |s.sources| && s.sources[i].id == src
                        && forall j :: 0 <= j < |s.sources| && j != i ==> s.sources[j].id != src
  {
    var s := Run(events);
    assert RequestOk(s.sources, s.queue[k]);
    assert Listed(s.sources, s.queue[k].pairs[p].src);
    var i :| 0 <= i < |s.sources| && s.sources[i].id == s.queue[k].pairs[p].src;
    assert forall j :: 0 <= j < |s.sources| && j != i ==> s.sources[j].id != s.sources[i].id;
  }

  /** In every run no handler ever follows a pointer to a freed address or request. */
  lemma NoFault(events: seq<Event>)
    ensures !Run(events).fault
  {
  }

  /** In every run a request is waiting exactly while its timer is armed, and a pair listens exactly
      while its request is waiting and has it. */
  lemma ActiveWhileQueued(events: seq<Event>)
    ensures var s := Run(events);
            && (forall k :: 0 <= k < |s.queue| ==> s.queue[k].timer)
            && (forall r :: r in s.dead ==> !r.timer)
            && (forall k, p :: 0 <= k < |s.queue| && 0 <= p < |s.queue[k].pairs| ==>
                  s.queue[k].pairs[p].listening && s.queue[k].pairs[p].owner == s.queue[k].id)
            && (forall p :: p in s.deleted ==> !p.listening)
  {
    var s := Run(events);
    forall k | 0 <= k < |s.queue| ensures RequestOk(s.sources, s.queue[k]) {
    }
  }

  /** Filled slots of pairs with the same interface, family and source address differ, and the slots
      of each pair are filled from the front. */
  ghost predicate SlotsDiffer(sources: seq<Source>, pairs: seq<Pair>) {
    && (forall p :: 0 <= p < |pairs| ==> Prefix(pairs[p].slots) && Listed(sources, pairs[p].src))
    && (forall p, q, i, j :: 0 <= p < |pairs| && 0 <= q < |pairs|
                          && 0 <= i < MAX_NUM_RESOLVED && 0 <= j < MAX_NUM_RESOLVED
          && (p != q || i != j) && SameKey(sources, pairs[p], pairs[q]) && pairs[p].slots[i].Some?
          ==> pairs[p].slots[i] != pairs[q].slots[j])
  }

  ghost predicate SameKey(sources: seq<Source>, a: Pair, b: Pair)
    requires Listed(sources, a.src) && Listed(sources, b.src)
  {
    var f, g := SourceOf(sources, a.src), SourceOf(sources, b.src);
    f.Is(g.family, g.ifIdx, g.ip)
  }

  lemma RequestSlots(sources: seq<Source>, next: nat, r: Request)
    requires SourcesOk(sources, next) && RequestOk(sources, r)
    ensures SlotsDiffer(sources, r.pairs)
  {
    forall p, q, i, j | 0 <= p < |r.pairs| && 0 <= q < |r.pairs|
                        && 0 <= i < MAX_NUM_RESOLVED && 0 <= j < MAX_NUM_RESOLVED
        && (p != q || i != j) && SameKey(sources, r.pairs[p], r.pairs[q]) && r.pairs[p].slots[i].Some?
      ensures r.pairs[p].slots[i] != r.pairs[q].slots[j]
    {
      assert Apart(r.pairs[p], i, r.pairs[q], j);
      SameSource(sources, next, SourceOf(sources, r.pairs[p].src), SourceOf(sources, r.pairs[q].src));
    }
  }

  /** In every run this holds of the pairs of every queued lookup. */
  lemma SlotsDistinct(events: seq<Event>)
    ensures var s := Run(events); forall k :: 0 <= k < |s.queue| ==> SlotsDiffer(s.sources, s.queue[k].pairs)
  {
    var s := Run(events);
    forall k | 0 <= k < |s.queue| ensures SlotsDiffer(s.sources, s.queue[k].pairs) {
      RequestSlots(s.sources, s.nextSource, s.queue[k]);
    }
  }

  /** In every run, the results handed to the caller of a name or localhost lookup repeat no
      (interface, source, destination) and have no deprecated source; those of a literal repeat
      nothing exactly when its addresses do not, or there are no results. */
  lemma ResultsClean(events: seq<Event>, k: nat)
    requires k < |Run(events).callbacks|
    ensures var c := Run(events).callbacks[k];
            Clean(c.results) <==> c.kind != Literal || Distinct(c.targets) || c.results == []
  {
    assert CallbackOk(Run(events).callbacks[k]);
  }

  /** In every run, each lookup is either waiting or has been called back, never both and never twice. */
  lemma CallbackOnce(events: seq<Event>, id: nat)
    requires id < Run(events).nextRequest
    ensures var s := Run(events);
            && (Queued(s, id) <==> !Called(s, id))
            && (forall j, k :: 0 <= j < k < |s.callbacks| ==> s.callbacks[j].req != id || s.callbacks[k].req != id)
  {
    assert Accounted(Run(events));
  }

  /** Callbacks are never taken back or changed, requests are never un-made. */
  ghost predicate Grown(s: State, t: State) { s.callbacks <= t.callbacks && s.nextRequest <= t.nextRequest }

  lemma StepGrows(s: State, e: Event)
    requires Inv(s)
    ensures Grown(s, Step(s, e))
  {
  }

  lemma GrownTwice(s: State, t: State, u: State)
    requires Grown(s, t) && Grown(t, u)
    ensures Grown(s, u)
  {
  }

  /** What a state has become after more events. */
  ghost function After(s: State, more: seq<Event>): (t: State)
    requires Inv(s)
    ensures Inv(t)
    decreases |more|
  {
    if more == [] then s
    else
      StepKeeps(s, more[0]);
      After(Step(s, more[0]), more[1..])
  }

  lemma {:induction false} AfterGrows(s: State, more: seq<Event>)
    requires Inv(s)
    ensures Grown(s, After(s, more))
    decreases |more|
  {
    if more != [] {
      StepKeeps(s, more[0]);
      StepGrows(s, more[0]);
      AfterGrows(Step(s, more[0]), more[1..]);
      GrownTwice(s, Step(s, more[0]), After(s, more));
    }
  }

  /** An event of the request's own handles. */
  predicate Concerns(e: Event, id: nat) { (e.Timer? && e.id == id) || (e.Reply? && e.owner == id) }

  /** A request that was called back hears of nothing more: its timer and its replies do nothing. */
  lemma DeadIsInert(s: State, id: nat, e: Event)
    requires Inv(s) && Called(s, id) && Concerns(e, id)
    ensures Step(s, e) == s
  {
    var c :| 0 <= c < |s.callbacks| && s.callbacks[c].req == id;
    assert Accounted(s);
    if e.Reply? {
      forall k, p ensures !Attached(s, k, p, e.owner, e.serial) {
        if 0 <= k < |s.queue| && 0 <= p < |s.queue[k].pairs| {
          assert RequestOk(s.sources, s.queue[k]);
        }
      }
    }
  }

  /** Once called back, a lookup is never queued again and its timer is never armed again, whatever
      happens later; its own timeouts and late replies change nothing at all. */
  lemma CallbackIsFinal(events: seq<Event>, more: seq<Event>, id: nat, e: Event)
    requires Called(Run(events), id) && Concerns(e, id)
    ensures var t := After(Run(events), more);
            && Called(t, id) && !Queued(t, id)
            && (forall r :: r in t.dead && r.id == id ==> !r.timer)
            && Step(t, e) == t
  {
    CalledStays(Run(events), more, id, e);
  }

  lemma CalledStays(s: State, more: seq<Event>, id: nat, e: Event)
    requires Inv(s) && Called(s, id) && Concerns(e, id)
    ensures var t := After(s, more);
            && Called(t, id) && !Queued(t, id)
            && (forall r :: r in t.dead && r.id == id ==> !r.timer)
            && Step(t, e) == t
  {
    AfterGrows(s, more);
    var t := After(s, more);
    var k :| 0 <= k < |s.callbacks| && s.callbacks[k].req == id;
    assert t.callbacks[k].req == id;
    assert Accounted(t) && Buried(t);
    DeadIsInert(t, id, e);
  }

  /** A timer finishes its lookup, except for literals and localhost while the first dump of
      addresses is missing; these keep their timer. */
  lemma TimerFinishesIff(s: State, k: nat)
    requires Inv(s) && k < |s.queue|
    ensures var t := OnTimer(s, k); var id := s.queue[k].id;
            && (Called(t, id) <==> s.queue[k].kind == Name || s.sources != [] || s.dumped)
            && (!Called(t, id) ==> t == s)
  {
    TimerKeeps(s, k);
    AnswerOk(s, k);
    var t, id := OnTimer(s, k), s.queue[k].id;
    if Answer(s, s.queue[k]).None? {
      assert RequestOk(s.sources, s.queue[k]);
      assert s.queue[k := s.queue[k].(timer := true)] == s.queue;
      assert Queued(t, id);
    } else {
      assert t.callbacks[|s.callbacks|].req == id;
    }
  }

  // ---------------------------------------------------------------- a literal that repeats itself

  const NEW_ADDRESS := Address(true, V4, 1, 7, 0, [])
  const TWICE := Resolve(Some(V4), Literal, [5, 5], [])

  lemma RunStep(events: seq<Event>, e: Event)
    ensures Run(events + [e]) == Step(Run(events), e)
  {
    var all := events + [e];
    assert all[..|all| - 1] == events;
  }

  const SOURCE := Source(0, 1, V4, 7, 0)
  const LITERAL := Request(0, Some(V4), Literal, [5, 5], [], 0, false, true)

  lemma AddressAdded()
    ensures Step(Fresh(), NEW_ADDRESS) == Fresh().(sources := [SOURCE], nextSource := 1)
  {
    assert [SOURCE] + [] == [SOURCE];
  }

  lemma LiteralQueued(s: State)
    requires s.queue == [] && s.nextRequest == 0
    ensures Step(s, TWICE) == s.(queue := [LITERAL], nextRequest := 1)
  {
  }

  lemma AfterAddress()
    ensures Run([NEW_ADDRESS]) == Fresh().(sources := [SOURCE], nextSource := 1)
  {
    AddressAdded();
    RunStep([], NEW_ADDRESS);
    assert [] + [NEW_ADDRESS] == [NEW_ADDRESS];
  }

  /** One address, and a lookup of a literal that names its target twice. */
  lemma Prepared(s: State)
    requires s == Run([NEW_ADDRESS])
    ensures Run([NEW_ADDRESS, TWICE]) == Step(s, TWICE)
  {
    RunStep([NEW_ADDRESS], TWICE);
    assert [NEW_ADDRESS] + [TWICE] == [NEW_ADDRESS, TWICE];
  }

  lemma AnsweredTwice(s: State)
    requires Inv(s) && s.sources == [SOURCE] && s.callbacks == [] && s.queue == [LITERAL]
    ensures var t := Step(s, Timer(0));
            |t.callbacks| == 1 && t.callbacks[0].kind == Literal && !Clean(t.callbacks[0].results)
  {
    var r := s.queue[0];
    assert s.queue[0].id == 0 && s.queue[0].timer;
    assert Usable(r, s.sources[0]);
    LiteralCleanIff(s.sources, s.nextSource, r, r.targets);
    NoDirectResults(s.sources, s.nextSource, r, r.targets);
    AnswerOk(s, 0);
    assert Step(s, Timer(0)) == OnTimer(s, 0);
  }

  /** A run in which the caller of a literal lookup is handed the same result twice. */
  lemma RepeatedLiteral()
    ensures var s := Run([NEW_ADDRESS, TWICE, Timer(0)]);
            |s.callbacks| == 1 && s.callbacks[0].kind == Literal && !Clean(s.callbacks[0].results)
  {
    AfterAddress();
    var s := Fresh().(sources := [SOURCE], nextSource := 1);
    Prepared(s);
    LiteralQueued(s);
    AnsweredTwice(Step(s, TWICE));
    Asked(Step(s, TWICE));
  }

  lemma Asked(s: State)
    requires s == Run([NEW_ADDRESS, TWICE])
    ensures Run([NEW_ADDRESS, TWICE, Timer(0)]) == Step(s, Timer(0))
  {
    RunStep([NEW_ADDRESS, TWICE], Timer(0));
    assert [NEW_ADDRESS, TWICE] + [Timer(0)] == [NEW_ADDRESS, TWICE, Timer(0)];
  }
}
