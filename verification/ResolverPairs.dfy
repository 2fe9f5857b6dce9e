/**
 The pairs of a lookup over whole runs: made for every source it may use when either appears, kept
 until the source goes or the lookup ends, and filled from the replies they get.
 */
module ResolverPairs {
  import opened Types
  import opened DnsReplies
  import opened Resolver
  import opened ResolverProofs
  import A = ResolverAnswers
  import K = ResolverLookups

  // ---------------------------------------------------------------- pairs are made

  function CountOf(pairs: seq<Pair>, src: nat): nat {
    if pairs == [] then 0 else CountOf(pairs[1..], src) + if pairs[0].src == src then 1 else 0
  }

  lemma {:induction false} CountConcat(a: seq<Pair>, b: seq<Pair>, src: nat)
    ensures CountOf(a + b, src) == CountOf(a, src) + CountOf(b, src)
    decreases |a|
  {
    if a == [] {
      assert a + b == b;
    } else {
      assert (a + b)[1..] == a[1..] + b;
      CountConcat(a[1..], b, src);
    }
  }

  lemma {:induction false} CountAll(pairs: seq<Pair>, at: nat, src: nat)
    requires forall i :: 0 <= i < |pairs| ==> pairs[i].src == at
    ensures CountOf(pairs, src) == if src == at then |pairs| else 0
    decreases |pairs|
  {
    if pairs != [] {
      CountAll(pairs[1..], at, src);
    }
  }

  lemma CountAdded(r: Request, at: nat, n: nat, src: nat)
    ensures CountOf(AddPairs(r, at, n).pairs, src) == CountOf(r.pairs, src) + if src == at then n else 0
  {
    CountAll(Copies(r, at, n), at, src);
    CountConcat(Copies(r, at, n), r.pairs, src);
  }

  /** A lookup of this kind and family queries from this source. */
  predicate Queries(kind: Kind, wanted: Option<Family>, s: Source) {
    && kind != Literal && (wanted == None || wanted == Some(s.family))
    && !(s.family == V6 && s.pref == 0)
  }

  lemma {:induction false} FirstPairsCount(sources: seq<Source>, next: nat, n: nat, r: Request, made: seq<nat>, j: nat)
    requires SourcesOk(sources, next) && n <= |sources| && j < |sources| && r.pairs == []
    ensures CountOf(FirstPairs(sources, n, r, made).pairs, sources[j].id)
            == if j < n && Queries(r.kind, r.family, sources[j]) then Made(made, j) else 0
  {
    if n > 0 {
      FirstPairsCount(sources, next, n - 1, r, made, j);
      CountAdded(FirstPairs(sources, n - 1, r, made), sources[n - 1].id, Made(made, n - 1), sources[j].id);
    }
  }

  /** The last request of `t` is new and has the pairs that the event makes for source `j`. */
  ghost predicate PairsFor(s: State, t: State, e: Event, j: nat)
    requires e.Resolve? && j < |s.sources|
  {
    && |t.queue| == |s.queue| + 1 && t.queue[..|s.queue|] == s.queue
    && CountOf(t.queue[|s.queue|].pairs, s.sources[j].id)
       == if e.kind == Name && Queries(Name, e.wanted, s.sources[j]) then Made(e.made, j) else 0
  }

  lemma ResolvePairs(s: State, e: Event, j: nat)
    requires SourcesOk(s.sources, s.nextSource) && Slotted(s) && e.Resolve? && j < |s.sources|
    ensures PairsFor(s, Step(s, e), e, j)
  {
    var r := OnResolve(s, e).queue[|s.queue|].(pairs := [], made := 0);
    FirstPairsCount(s.sources, s.nextSource, |s.sources|, r, e.made, j);
  }

  /** In every run a new name lookup gets a pair for every server that could be asked from every source
      it may use, and no others; literals and localhost get none. */
  lemma ResolveMakesPairs(events: seq<Event>, e: Event, j: nat)
    requires e.Resolve? && j < |Run(events).sources|
    ensures PairsFor(Run(events), Run(events + [e]), e, j)
  {
    ResolvePairs(Run(events), e, j);
    RunStep(events, e);
  }

  /** Request `k` has new pairs for the source in front of those it had. */
  ghost predicate PairsInFront(s: State, t: State, src: Source, made: seq<nat>, k: nat)
    requires k < |s.queue|
  {
    var n := if Queries(s.queue[k].kind, s.queue[k].family, src) then Made(made, k) else 0;
    && |t.queue| == |s.queue| && |t.queue[k].pairs| == n + |s.queue[k].pairs|
    && t.queue[k].pairs[n..] == s.queue[k].pairs
    && forall i :: 0 <= i < n ==>
         t.queue[k].pairs[i].src == src.id && t.queue[k].pairs[i].slots == [None, None, None]
  }

  lemma AddressPairs(s: State, e: Event, k: nat)
    requires e.Address? && k < |s.queue| && IndexOf(s.sources, e.family, e.ifIdx, e.ip).None?
    ensures PairsInFront(s, OnAddress(s, e), Source(s.nextSource, e.ifIdx, e.family, e.ip, e.pref), e.made, k)
  {
    var src := Source(s.nextSource, e.ifIdx, e.family, e.ip, e.pref);
    assert OnAddress(s, e).queue == WithPairs(s.queue, src, e.made);
  }

  /** In every run an address that is not listed yet gives every waiting lookup that may use it a pair
      for every server that could be asked, in front of the pairs it has. */
  lemma AddressMakesPairs(events: seq<Event>, e: Event, k: nat)
    requires e.Address? && k < |Run(events).queue|
    requires forall i :: 0 <= i < |Run(events).sources| ==> !Run(events).sources[i].Is(e.family, e.ifIdx, e.ip)
    ensures var s := Run(events);
            PairsInFront(s, Run(events + [e]), Source(s.nextSource, e.ifIdx, e.family, e.ip, e.pref), e.made, k)
  {
    RunStep(events, e);
    AddressPairs(Run(events), e, k);
  }

  // ---------------------------------------------------------------- pairs go

  lemma {:induction false} SurvivorsAll(sources: seq<Source>, f: Family, a: nat, pairs: seq<Pair>, p: Pair)
    ensures p in Survivors(sources, f, a, pairs) <==> p in pairs && !Doomed(sources, f, a, p)
  {
    if pairs != [] {
      var n := |pairs| - 1;
      SurvivorsAll(sources, f, a, pairs[..n], p);
      assert pairs == pairs[..n] + [pairs[n]];
    }
  }

  lemma {:induction false} RemovedAll(sources: seq<Source>, f: Family, a: nat, pairs: seq<Pair>, p: Pair)
    requires p in pairs && Doomed(sources, f, a, p)
    ensures Stopped(p) in Removed(sources, f, a, pairs)
  {
    var n := |pairs| - 1;
    if p != pairs[n] {
      assert p in pairs[..n];
      RemovedAll(sources, f, a, pairs[..n], p);
    }
  }

  lemma {:induction false} AllRemovedAll(
      sources: seq<Source>, queue: seq<Request>, n: nat, f: Family, a: nat, k: nat, p: Pair)
    requires k < n <= |queue| && p in queue[k].pairs && Doomed(sources, f, a, p)
    ensures Stopped(p) in AllRemoved(sources, queue, n, f, a)
  {
    if k == n - 1 {
      RemovedAll(sources, f, a, queue[k].pairs, p);
    } else {
      AllRemovedAll(sources, queue, n - 1, f, a, k, p);
    }
  }

  /** In every run a deleted address takes exactly the pairs with it whose source has that address, on
      any interface; these stop listening and wait for their sockets to be closed. */
  lemma DeleteTakesPairs(events: seq<Event>, e: Event, k: nat, p: Pair)
    requires e.Address? && !e.added && k < |Run(events).queue| && p in Run(events).queue[k].pairs
    requires IndexOf(Run(events).sources, e.family, e.ifIdx, e.ip).Some?
    ensures var s, t := Run(events), Run(events + [e]);
            && |t.queue| == |s.queue|
            && (p in t.queue[k].pairs <==> !Doomed(s.sources, e.family, e.ip, p))
            && (p !in t.queue[k].pairs ==> p.(listening := false) in t.deleted)
  {
    RunStep(events, e);
    var s := Run(events);
    SurvivorsAll(s.sources, e.family, e.ip, s.queue[k].pairs, p);
    if Doomed(s.sources, e.family, e.ip, p) {
      AllRemovedAll(s.sources, s.queue, |s.queue|, e.family, e.ip, k, p);
    }
  }

  lemma {:induction false} AllStoppedAll(pairs: seq<Pair>, n: nat, i: nat)
    requires i < n <= |pairs|
    ensures Stopped(pairs[i]) in AllStopped(pairs, n)
  {
    if i < n - 1 {
      AllStoppedAll(pairs, n - 1, i);
    }
  }

  /** In every run a lookup that is called back leaves its pairs, stopped, to be closed, and itself to
      the dead requests. */
  lemma DoneStopsPairs(events: seq<Event>, k: nat, i: nat)
    requires k < |Run(events).queue| && i < |Run(events).queue[k].pairs|
    ensures var s := Run(events);
            var r := s.queue[k];
            var t := Run(events + [Timer(r.id)]);
            |t.callbacks| > |s.callbacks| ==>
              && r.pairs[i].(listening := false) in t.deleted
              && r.(pairs := [], timer := false) in t.dead
  {
    var s := Run(events);
    RunStep(events, Timer(s.queue[k].id));
    A.TimerReaches(s, k);
    A.AnswerIsRight(s, k);
    AllStoppedAll(s.queue[k].pairs, |s.queue[k].pairs|, i);
  }

  // ---------------------------------------------------------------- pairs are filled

  /** The address is in one of the slots `from` up to `to`. */
  ghost predicate InSlots(pair: Pair, from: nat, to: nat, addr: nat) {
    exists i :: from <= i < to && i < |pair.slots| && pair.slots[i] == Some(addr)
  }

  /** What a reply leaves: slots `from` up to `to` of pair `p` have addresses of the reply, the others
      are as before, and each address of the reply was there before or is in one of these slots, unless
      all slots are used up. */
  ghost predicate Filled(
      pairs: seq<Pair>, next: seq<Pair>, p: nat, from: nat, to: nat, records: seq<Option<nat>>) {
    && p < |pairs| == |next| && from <= to <= MAX_NUM_RESOLVED == |next[p].slots| == |pairs[p].slots|
    && (forall i :: from <= i < to ==> next[p].slots[i].Some? && next[p].slots[i] in records)
    && (forall i :: 0 <= i < MAX_NUM_RESOLVED && !(from <= i < to) ==> next[p].slots[i] == pairs[p].slots[i])
    && (forall q :: 0 <= q < |pairs| && q != p ==> next[q] == pairs[q])
    && (to < MAX_NUM_RESOLVED ==>
          forall k :: 0 <= k < |records| && records[k].Some? ==>
            Seen(pairs, pairs[p].src, records[k].value) || InSlots(next[p], from, to, records[k].value))
  }

  lemma SkipFills(pairs: seq<Pair>, next: seq<Pair>, p: nat, n: nat, m: nat, records: seq<Option<nat>>)
    requires records != [] && Filled(pairs, next, p, n, m, records[1..])
    requires records[0].Some? ==> Seen(pairs, pairs[p].src, records[0].value)
    ensures Filled(pairs, next, p, n, m, records)
  {
    forall i | n <= i < m ensures next[p].slots[i] in records {
      assert next[p].slots[i] in records[1..];
    }
    forall k | 0 <= k < |records| && records[k].Some? && m < MAX_NUM_RESOLVED
      ensures Seen(pairs, pairs[p].src, records[k].value) || InSlots(next[p], n, m, records[k].value)
    {
      assert k > 0 ==> records[k] == records[1..][k - 1];
    }
  }

  lemma SeenBeforeStore(pairs: seq<Pair>, p: nat, n: nat, addr: nat, a: nat)
    requires p < |pairs| && n < |pairs[p].slots| && Seen(Store(pairs, p, n, addr), pairs[p].src, a) && a != addr
    ensures Seen(pairs, pairs[p].src, a)
  {
    var next := Store(pairs, p, n, addr);
    var q, i :| 0 <= q < |next| && 0 <= i < |next[q].slots| && next[q].src == pairs[p].src
                && next[q].slots[i] == Some(a);
    assert pairs[q].slots[i] == Some(a);
  }

  lemma StoreFills(pairs: seq<Pair>, next: seq<Pair>, p: nat, n: nat, m: nat, records: seq<Option<nat>>)
    requires p < |pairs| && n < MAX_NUM_RESOLVED == |pairs[p].slots| && records != [] && records[0].Some?
    requires Filled(Store(pairs, p, n, records[0].value), next, p, n + 1, m, records[1..])
    ensures Filled(pairs, next, p, n, m, records)
  {
    var addr := records[0].value;
    assert next[p].slots[n] == Some(addr) == records[0];
    forall i | n <= i < m ensures next[p].slots[i].Some? && next[p].slots[i] in records {
      if i > n {
        assert next[p].slots[i] in records[1..];
      }
    }
    forall k | 0 <= k < |records| && records[k].Some? && m < MAX_NUM_RESOLVED
      ensures Seen(pairs, pairs[p].src, records[k].value) || InSlots(next[p], n, m, records[k].value)
    {
      var a := records[k].value;
      if a != addr {
        assert records[k] == records[1..][k - 1];
        if Seen(Store(pairs, p, n, addr), pairs[p].src, a) {
          SeenBeforeStore(pairs, p, n, addr, a);
        } else {
          var i :| n + 1 <= i < m && next[p].slots[i] == Some(a);
          assert InSlots(next[p], n, m, a);
        }
      } else {
        assert InSlots(next[p], n, m, a);
      }
    }
  }

  lemma {:induction false} TakeFills(pairs: seq<Pair>, p: nat, n: nat, records: seq<Option<nat>>)
    requires p < |pairs| && n <= MAX_NUM_RESOLVED == |pairs[p].slots|
    ensures var (next, m) := TakeRecords(pairs, p, n, records); Filled(pairs, next, p, n, m, records)
    decreases |records|
  {
    if records != [] && n < MAX_NUM_RESOLVED {
      var (next, m) := TakeRecords(pairs, p, n, records);
      if records[0].None? || Seen(pairs, pairs[p].src, records[0].value) {
        TakeFills(pairs, p, n, records[1..]);
        SkipFills(pairs, next, p, n, m, records);
      } else {
        TakeFills(Store(pairs, p, n, records[0].value), p, n + 1, records[1..]);
        StoreFills(pairs, next, p, n, m, records);
      }
    }
  }

  /** In every run a good reply to a pair of a waiting lookup fills slots of that pair from the front,
      with addresses that no pair of its source had; no other lookup changes, and a bad reply changes
      no slot. */
  lemma ReplyFills(events: seq<Event>, k: nat, p: nat, good: bool, records: seq<Option<nat>>) returns (n: nat)
    requires k < |Run(events).queue| && p < |Run(events).queue[k].pairs|
    ensures var s := Run(events);
            var r := s.queue[k];
            var t := Run(events + [Reply(r.id, r.pairs[p].serial, good, records)]);
            && |t.queue| == |s.queue|
            && (forall j :: 0 <= j < |s.queue| && j != k ==> t.queue[j] == s.queue[j])
            && (if good then Filled(r.pairs, t.queue[k].pairs, p, 0, n, records) else t.queue[k].pairs == r.pairs)
  {
    var s := Run(events);
    var r := s.queue[k];
    RunStep(events, Reply(r.id, r.pairs[p].serial, good, records));
    K.RunNumbered(events);
    K.ReplyReaches(s, k, p, good, records);
    assert RequestOk(s.sources, r) && Anchored(s.sources, r.pairs);
    n := TakeRecords(r.pairs, p, 0, records).1;
    TakeFills(r.pairs, p, 0, records);
  }

  // ---------------------------------------------------------------- the dead are buried

  /** The timer handle of the request was closed after its callback. */
  ghost predicate ClosedSince(events: seq<Event>, id: nat)
    decreases |events|
  {
    events != [] &&
    var before := events[..|events| - 1];
    ClosedSince(before, id) || (events[|events| - 1] == TimerClosed(id) && Called(Run(before), id))
  }

  ghost predicate Dead(s: State, id: nat) { exists r :: r in s.dead && r.id == id }

  /** What a step does to the dead requests. */
  lemma StepDead(s: State, e: Event, id: nat)
    requires Inv(s)
    ensures Dead(Step(s, e), id) <==>
            e != TimerClosed(id) && (Dead(s, id) || (Called(Step(s, e), id) && !Called(s, id)))
  {
    var t := Step(s, e);
    assert Accounted(s) && Buried(s);
    match e
    case Timer(x) =>
      if Queued(s, x) {
        var k: nat :| k < |s.queue| && s.queue[k].id == x;
        A.TimerReaches(s, k);
        A.AnswerIsRight(s, k);
        TimerDead(s, k, id);
      } else {
        K.TimerUnheard(s, x);
      }
    case Reply(owner, serial, good, records) =>
      if exists k, p :: Attached(s, k, p, owner, serial) {
        var k, p := K.ReplyChosen(s, owner, serial, good, records);
      } else {
        K.ReplyUnheard(s, owner, serial, good, records);
      }
    case TimerClosed(x) =>
      if Dead(s, id) && x != id {
        var r :| r in s.dead && r.id == id;
        assert r in t.dead;
      }
    case _ =>
  }

  lemma TimerDead(s: State, k: nat, id: nat)
    requires Inv(s) && k < |s.queue|
    ensures var t := OnTimer(s, k);
            Dead(t, id) <==> Dead(s, id) || (Called(t, id) && !Called(s, id))
  {
    var t, r := OnTimer(s, k), s.queue[k];
    A.AnswerIsRight(s, k);
    if |t.callbacks| > |s.callbacks| {
      assert t.dead == s.dead + {Cleaned(r)} && Cleaned(r) in t.dead && Cleaned(r).id == r.id;
      assert t.callbacks[|s.callbacks|].req == r.id;
      if Called(s, id) {
        var c :| 0 <= c < |s.callbacks| && s.callbacks[c].req == id;
        assert t.callbacks[c].req == id;
      }
      if Dead(s, id) {
        var x :| x in s.dead && x.id == id;
        assert x in t.dead;
      }
    }
  }

  lemma CalledGrows(s: State, e: Event, id: nat)
    requires Inv(s) && Called(s, id)
    ensures Called(Step(s, e), id)
  {
    StepGrows(s, e);
    var c :| 0 <= c < |s.callbacks| && s.callbacks[c].req == id;
    assert Step(s, e).callbacks[c].req == id;
  }

  lemma {:induction false} ClosedWasCalled(events: seq<Event>, id: nat)
    requires ClosedSince(events, id)
    ensures Called(Run(events), id)
    decreases |events|
  {
    var before, e := events[..|events| - 1], events[|events| - 1];
    if ClosedSince(before, id) {
      ClosedWasCalled(before, id);
    }
    CalledGrows(Run(before), e, id);
  }

  lemma DeadStep(s: State, e: Event, id: nat, closed: bool)
    requires Inv(s) && (Dead(s, id) <==> Called(s, id) && !closed) && (closed ==> Called(s, id))
    ensures Dead(Step(s, e), id) <==>
            Called(Step(s, e), id) && !(closed || (e == TimerClosed(id) && Called(s, id)))
  {
    StepDead(s, e, id);
    if Called(s, id) {
      CalledGrows(s, e, id);
    }
  }

  /** In every run the dead requests are those that were called back and whose timers are not closed. */
  lemma {:induction false} DeadIff(events: seq<Event>, id: nat)
    ensures Dead(Run(events), id) <==> Called(Run(events), id) && !ClosedSince(events, id)
    decreases |events|
  {
    if events != [] {
      var before := events[..|events| - 1];
      DeadIff(before, id);
      if ClosedSince(before, id) {
        ClosedWasCalled(before, id);
      }
      DeadStep(Run(before), events[|events| - 1], id, ClosedSince(before, id));
    }
  }

  /** In every run closing a pair's socket takes exactly that pair, if it was stopped, off the deleted
      ones. */
  lemma PairClosedIff(events: seq<Event>, owner: nat, serial: nat, p: Pair)
    ensures var s, t := Run(events), Run(events + [PairClosed(owner, serial)]);
            p in t.deleted <==> p in s.deleted && !(p.owner == owner && p.serial == serial)
  {
    ClosedOnce(Run(events), owner, serial, p);
    RunStep(events, PairClosed(owner, serial));
  }

  lemma ClosedOnce(s: State, owner: nat, serial: nat, p: Pair)
    requires Slotted(s) && Buried(s)
    ensures p in Step(s, PairClosed(owner, serial)).deleted <==>
            p in s.deleted && !(p.owner == owner && p.serial == serial)
  {
  }
}
