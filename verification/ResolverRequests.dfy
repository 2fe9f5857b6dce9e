/**
 Lookups over whole runs: the queued requests and the callbacks are those of the lookups asked for,
 and a request has been rearmed exactly if one of its pairs heard a reply that settles it.
 */
module ResolverRequests {
  import opened Types
  import opened DnsReplies
  import opened Resolver
  import opened ResolverProofs
  import A = ResolverAnswers
  import K = ResolverLookups

  // ---------------------------------------------------------------- what settles a lookup

  lemma {:induction false} TakenAtLeast(pairs: seq<Pair>, p: nat, n: nat, records: seq<Option<nat>>)
    requires p < |pairs| && |pairs[p].slots| == MAX_NUM_RESOLVED
    ensures TakeRecords(pairs, p, n, records).1 >= n
    decreases |records|
  {
    if records != [] && n < MAX_NUM_RESOLVED {
      if records[0].None? || Seen(pairs, pairs[p].src, records[0].value) {
        TakenAtLeast(pairs, p, n, records[1..]);
      } else {
        TakenAtLeast(Store(pairs, p, n, records[0].value), p, n + 1, records[1..]);
      }
    }
  }

  /** A reply stores something if and only if it has an address that no pair of the source has. */
  lemma {:induction false} StoresIff(pairs: seq<Pair>, p: nat, records: seq<Option<nat>>)
    requires p < |pairs| && |pairs[p].slots| == MAX_NUM_RESOLVED
    ensures TakeRecords(pairs, p, 0, records).1 > 0 <==> Useful(pairs, pairs[p].src, records)
    decreases |records|
  {
    if records != [] {
      var src, rest := pairs[p].src, records[1..];
      if records[0].None? || Seen(pairs, src, records[0].value) {
        StoresIff(pairs, p, rest);
        if Useful(pairs, src, records) {
          var i :| 0 <= i < |records| && records[i].Some? && !Seen(pairs, src, records[i].value);
          assert rest[i - 1] == records[i];
        }
        if Useful(pairs, src, rest) {
          var i :| 0 <= i < |rest| && rest[i].Some? && !Seen(pairs, src, rest[i].value);
          assert records[i + 1] == rest[i];
        }
      } else {
        TakenAtLeast(Store(pairs, p, 0, records[0].value), p, 1, rest);
        assert records[0].Some?;
      }
    }
  }

  /** The reply of one pair settles its lookup: it cannot be used, or brings a new address. */
  ghost predicate Settles(r: Request, p: int, e: Event) {
    && e.Reply? && 0 <= p < |r.pairs| && e.owner == r.id && r.pairs[p].serial == e.serial
    && (!e.good || Useful(r.pairs, r.pairs[p].src, e.records))
  }

  ghost predicate Rearms(s: State, e: Event, id: nat) {
    exists k, p :: 0 <= k < |s.queue| && s.queue[k].id == id && Settles(s.queue[k], p, e)
  }

  // ---------------------------------------------------------------- one step

  ghost predicate SameLookup(r: Request, q: Request) {
    r.id == q.id && r.family == q.family && r.kind == q.kind && r.targets == q.targets
  }

  /** Request `q` is one that was waiting before the event, rearmed if the event settles it. */
  ghost predicate Carried(s: State, e: Event, k: nat, q: Request) {
    && k < |s.queue| && SameLookup(s.queue[k], q)
    && (q.rearmed <==> s.queue[k].rearmed || exists p :: Settles(s.queue[k], p, e))
  }

  function TargetsOf(kind: Kind, targets: seq<nat>): seq<nat> {
    match kind
    case Name => []
    case Literal => targets
    case Localhost => [0]
  }

  /** Request `q` is what the event asks for. */
  ghost predicate Asked(e: Event, q: Request) {
    && e.Resolve? && q.family == e.wanted && q.kind == e.kind && q.targets == TargetsOf(e.kind, e.targets)
    && !q.rearmed
  }

  lemma ReplyCarries(s: State, k: nat, p: nat, e: Event, j: nat)
    requires Inv(s) && K.AllNumbered(s.queue) && k < |s.queue| && p < |s.queue[k].pairs| && j < |s.queue|
    requires |s.queue[k].pairs[p].slots| == MAX_NUM_RESOLVED
    requires e.Reply? && e.owner == s.queue[k].id && e.serial == s.queue[k].pairs[p].serial
    ensures |OnReply(s, k, p, e.good, e.records).queue| == |s.queue|
    ensures Carried(s, e, j, OnReply(s, k, p, e.good, e.records).queue[j])
  {
    var r := s.queue[k];
    assert RequestOk(s.sources, r) && Anchored(s.sources, r.pairs);
    StoresIff(r.pairs, p, e.records);
    if j == k {
      assert K.Numbered(r.pairs, r.made);
      assert Settles(r, p, e) <==> !e.good || Useful(r.pairs, r.pairs[p].src, e.records);
      assert forall q :: Settles(r, q, e) ==> q == p;
    } else {
      assert s.queue[j].id != r.id;
    }
  }

  /** In a step that is no reply every request that stays is as it was asked for, and nothing is
      rearmed. */
  lemma OthersCarry(s: State, e: Event, j: nat)
    requires Inv(s) && !e.Reply? && !e.Timer? && j < |Step(s, e).queue|
    ensures var q := Step(s, e).queue[j];
            if j < |s.queue| then Carried(s, e, j, q) else Asked(e, q) && j == |s.queue| && q.id == s.nextRequest
  {
  }

  lemma TimerCarries(s: State, k: nat, j: nat)
    requires Inv(s) && k < |s.queue| && j < |OnTimer(s, k).queue|
    ensures exists i: nat :: Carried(s, Timer(s.queue[k].id), i, OnTimer(s, k).queue[j])
  {
    var t := OnTimer(s, k);
    assert RequestOk(s.sources, s.queue[k]);
    if |t.queue| == |s.queue| {
      assert Carried(s, Timer(s.queue[k].id), j, t.queue[j]);
    } else {
      var i: nat := if j < k then j else j + 1;
      assert t.queue[j] == s.queue[i];
      assert Carried(s, Timer(s.queue[k].id), i, t.queue[j]);
    }
  }

  /** Every request after an event was waiting before, or is the one just asked for. */
  lemma StepCarries(s: State, e: Event, j: nat)
    requires Inv(s) && K.AllNumbered(s.queue) && j < |Step(s, e).queue|
    ensures var q := Step(s, e).queue[j];
            || (exists i: nat :: Carried(s, e, i, q))
            || (Asked(e, q) && q.id == s.nextRequest)
  {
    match e
    case Reply(owner, serial, good, records) =>
      if exists k, p :: Attached(s, k, p, owner, serial) {
        var k, p := K.ReplyChosen(s, owner, serial, good, records);
        ReplyCarries(s, k, p, e, j);
      } else {
        K.ReplyUnheard(s, owner, serial, good, records);
        Unsettled(s, e, j);
      }
    case Timer(id) =>
      if Queued(s, id) {
        var k: nat :| k < |s.queue| && s.queue[k].id == id;
        A.TimerReaches(s, k);
        TimerCarries(s, k, j);
      } else {
        K.TimerUnheard(s, id);
        assert Carried(s, e, j, s.queue[j]);
      }
    case _ => OthersCarry(s, e, j);
  }

  lemma Unsettled(s: State, e: Event, j: nat)
    requires Inv(s) && e.Reply? && j < |s.queue| && !exists k, p :: Attached(s, k, p, e.owner, e.serial)
    ensures Carried(s, e, j, s.queue[j])
  {
    assert RequestOk(s.sources, s.queue[j]);
    forall p ensures !Settles(s.queue[j], p, e) {
      if 0 <= p < |s.queue[j].pairs| && s.queue[j].id == e.owner {
        assert !Attached(s, j, p, e.owner, e.serial);
      }
    }
  }

  /** A callback is of a request that was waiting. */
  lemma StepCalls(s: State, e: Event, c: nat)
    requires Inv(s) && c < |Step(s, e).callbacks|
    ensures var x := Step(s, e).callbacks[c];
            if c < |s.callbacks| then x == s.callbacks[c]
            else exists k :: 0 <= k < |s.queue| && x.req == s.queue[k].id && x.kind == s.queue[k].kind
                             && x.targets == s.queue[k].targets
  {
    match e
    case Reply(owner, serial, good, records) =>
      if exists k, p :: Attached(s, k, p, owner, serial) {
        var k, p := K.ReplyChosen(s, owner, serial, good, records);
      } else {
        K.ReplyUnheard(s, owner, serial, good, records);
      }
    case Timer(id) =>
      if Queued(s, id) {
        var k: nat :| k < |s.queue| && s.queue[k].id == id;
        A.TimerReaches(s, k);
      } else {
        K.TimerUnheard(s, id);
      }
    case _ =>
  }

  // ---------------------------------------------------------------- runs

  /** The lookups asked for, in order: a request's id is its place here. */
  function Lookups(events: seq<Event>): (r: seq<Event>)
    ensures forall i :: 0 <= i < |r| ==> r[i].Resolve?
  {
    if events == [] then []
    else
      var r := Lookups(events[..|events| - 1]);
      if events[|events| - 1].Resolve? then r + [events[|events| - 1]] else r
  }

  /** Some reply to one of its pairs has settled the lookup. */
  ghost predicate WasRearmed(events: seq<Event>, id: nat)
    decreases |events|
  {
    events != [] &&
    var before := events[..|events| - 1];
    WasRearmed(before, id) || Rearms(Run(before), events[|events| - 1], id)
  }

  ghost predicate AsAsked(asked: seq<Event>, q: Request)
    requires forall i :: 0 <= i < |asked| ==> asked[i].Resolve?
  {
    && q.id < |asked|
    && var e := asked[q.id];
       q.family == e.wanted && q.kind == e.kind && q.targets == TargetsOf(e.kind, e.targets)
  }

  ghost predicate CalledAsAsked(asked: seq<Event>, c: Callback)
    requires forall i :: 0 <= i < |asked| ==> asked[i].Resolve?
  {
    c.req < |asked| && c.kind == asked[c.req].kind && c.targets == TargetsOf(asked[c.req].kind, asked[c.req].targets)
  }

  ghost predicate Told(events: seq<Event>, s: State) {
    var asked := Lookups(events);
    && s.nextRequest == |asked|
    && (forall k :: 0 <= k < |s.queue| ==>
          AsAsked(asked, s.queue[k]) && (s.queue[k].rearmed <==> WasRearmed(events, s.queue[k].id)))
    && (forall c :: 0 <= c < |s.callbacks| ==> CalledAsAsked(asked, s.callbacks[c]))
  }

  lemma LookupsSnoc(events: seq<Event>, e: Event)
    ensures Lookups(events + [e]) == Lookups(events) + if e.Resolve? then [e] else []
    ensures forall id: nat :: WasRearmed(events + [e], id) <==> WasRearmed(events, id) || Rearms(Run(events), e, id)
  {
    assert (events + [e])[..|events|] == events;
  }

  /** Nobody is rearmed before being asked for. */
  lemma {:induction false} RearmedWasAsked(events: seq<Event>, id: nat)
    requires WasRearmed(events, id)
    ensures id < Run(events).nextRequest
    decreases |events|
  {
    var before, e := events[..|events| - 1], events[|events| - 1];
    StepGrows(Run(before), e);
    if WasRearmed(before, id) {
      RearmedWasAsked(before, id);
    } else {
      assert Accounted(Run(before));
    }
  }

  lemma CarriedRearms(s: State, e: Event, k: nat, q: Request)
    requires Inv(s) && Carried(s, e, k, q)
    ensures q.rearmed <==> s.queue[k].rearmed || Rearms(s, e, q.id)
  {
    if Rearms(s, e, q.id) {
      var j: int, p: int :| 0 <= j < |s.queue| && s.queue[j].id == q.id && Settles(s.queue[j], p, e);
      A.SameRequest(s, j, k);
    }
  }

  lemma StepNext(s: State, e: Event)
    requires Inv(s)
    ensures Step(s, e).nextRequest == s.nextRequest + if e.Resolve? then 1 else 0
  {
    if e.Reply? {
      if exists k, p :: Attached(s, k, p, e.owner, e.serial) {
        var k, p := K.ReplyChosen(s, e.owner, e.serial, e.good, e.records);
      } else {
        K.ReplyUnheard(s, e.owner, e.serial, e.good, e.records);
      }
    }
  }

  lemma ToldRequest(events: seq<Event>, e: Event, j: nat)
    requires Told(events, Run(events)) && j < |Step(Run(events), e).queue|
    ensures var q := Step(Run(events), e).queue[j];
            AsAsked(Lookups(events + [e]), q) && (q.rearmed <==> WasRearmed(events + [e], q.id))
  {
    var s := Run(events);
    var q := Step(s, e).queue[j];
    K.RunNumbered(events);
    StepCarries(s, e, j);
    LookupsSnoc(events, e);
    if i: nat :| Carried(s, e, i, q) {
      CarriedRearms(s, e, i, q);
    } else {
      if WasRearmed(events, q.id) {
        RearmedWasAsked(events, q.id);
      }
      assert Accounted(s);
    }
  }

  lemma ToldCallback(events: seq<Event>, e: Event, c: nat)
    requires Told(events, Run(events)) && c < |Step(Run(events), e).callbacks|
    ensures CalledAsAsked(Lookups(events + [e]), Step(Run(events), e).callbacks[c])
  {
    StepCalls(Run(events), e, c);
    LookupsSnoc(events, e);
  }

  lemma NextTold(events: seq<Event>, e: Event)
    requires Told(events, Run(events))
    ensures Told(events + [e], Step(Run(events), e))
  {
    var t := Step(Run(events), e);
    StepNext(Run(events), e);
    LookupsSnoc(events, e);
    forall k | 0 <= k < |t.queue|
      ensures AsAsked(Lookups(events + [e]), t.queue[k])
      ensures t.queue[k].rearmed <==> WasRearmed(events + [e], t.queue[k].id)
    {
      ToldRequest(events, e, k);
    }
    forall c | 0 <= c < |t.callbacks| ensures CalledAsAsked(Lookups(events + [e]), t.callbacks[c]) {
      ToldCallback(events, e, c);
    }
  }

  lemma {:induction false} RunTold(events: seq<Event>)
    ensures Told(events, Run(events))
    decreases |events|
  {
    if events != [] {
      var before, e := events[..|events| - 1], events[|events| - 1];
      RunTold(before);
      NextTold(before, e);
      assert before + [e] == events;
    }
  }

  /** In every run each waiting request is the lookup that was asked for under its number, and it is
      rearmed if and only if a reply to one of its pairs has settled it; each callback goes to the
      lookup asked for under its number. */
  lemma RequestsAreAsked(events: seq<Event>)
    ensures var s := Run(events);
            var asked := Lookups(events);
            && s.nextRequest == |asked|
            && (forall k :: 0 <= k < |s.queue| ==>
                  AsAsked(asked, s.queue[k]) && (s.queue[k].rearmed <==> WasRearmed(events, s.queue[k].id)))
            && (forall c :: 0 <= c < |s.callbacks| ==> CalledAsAsked(asked, s.callbacks[c]))
  {
    RunTold(events);
  }
}
