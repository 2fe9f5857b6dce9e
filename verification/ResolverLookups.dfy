/**
 How lookups come to their answers: every queued request is the one that was asked for, its pairs are
 made for the sources it may use, replies reach their own pair, and store what they bring.
 */
module ResolverLookups {
  import opened Types
  import opened DnsReplies
  import opened Resolver
  import opened ResolverProofs
  import A = ResolverAnswers

  // ---------------------------------------------------------------- pairs have their own numbers

  ghost predicate Numbered(pairs: seq<Pair>, made: nat) {
    && (forall p :: 0 <= p < |pairs| ==> pairs[p].serial < made)
    && (forall p, q :: 0 <= p < q < |pairs| ==> pairs[p].serial != pairs[q].serial)
  }

  ghost predicate AllNumbered(queue: seq<Request>) {
    forall k :: 0 <= k < |queue| ==> Numbered(queue[k].pairs, queue[k].made)
  }

  lemma AddPairsNumbered(r: Request, src: nat, n: nat)
    requires Numbered(r.pairs, r.made)
    ensures Numbered(AddPairs(r, src, n).pairs, AddPairs(r, src, n).made)
  {
    var pairs := AddPairs(r, src, n).pairs;
    assert forall p :: 0 <= p < |pairs| ==>
      pairs[p].serial == if p < n then r.made + p else r.pairs[p - n].serial;
  }

  lemma {:induction false} FirstPairsNumbered(sources: seq<Source>, n: nat, r: Request, made: seq<nat>)
    requires n <= |sources| && Numbered(r.pairs, r.made)
    ensures var q := FirstPairs(sources, n, r, made); Numbered(q.pairs, q.made)
  {
    if n > 0 {
      FirstPairsNumbered(sources, n - 1, r, made);
      AddPairsNumbered(FirstPairs(sources, n - 1, r, made), sources[n - 1].id, Made(made, n - 1));
    }
  }

  lemma {:induction false} SurvivorsNumbered(sources: seq<Source>, f: Family, a: nat, pairs: seq<Pair>, made: nat)
    requires Numbered(pairs, made)
    ensures Numbered(Survivors(sources, f, a, pairs), made)
  {
    if pairs != [] {
      var n := |pairs| - 1;
      var r := Survivors(sources, f, a, pairs[..n]);
      SurvivorsNumbered(sources, f, a, pairs[..n], made);
      forall i | 0 <= i < |r| ensures r[i].serial != pairs[n].serial {
        var j :| 0 <= j < n && pairs[..n][j] == r[i];
      }
    }
  }

  lemma ReplyNumbered(pairs: seq<Pair>, made: nat, p: nat, records: seq<Option<nat>>)
    requires PairsOk(pairs) && p < |pairs| && Numbered(pairs, made)
    ensures Numbered(TakeRecords(pairs, p, 0, records).0, made)
  {
    TakeRecordsKeeps(pairs, p, 0, records);
  }

  lemma OnReplyNumbered(s: State, k: nat, p: nat, good: bool, records: seq<Option<nat>>)
    requires Inv(s) && AllNumbered(s.queue) && k < |s.queue| && p < |s.queue[k].pairs|
    ensures AllNumbered(OnReply(s, k, p, good, records).queue)
  {
    assert RequestOk(s.sources, s.queue[k]);
    ReplyNumbered(s.queue[k].pairs, s.queue[k].made, p, records);
  }

  lemma AddressNumbered(s: State, e: Event)
    requires e.Address? && AllNumbered(s.queue)
    ensures AllNumbered(OnAddress(s, e).queue)
  {
    var t := OnAddress(s, e);
    var at := IndexOf(s.sources, e.family, e.ifIdx, e.ip);
    forall k | 0 <= k < |t.queue| ensures Numbered(t.queue[k].pairs, t.queue[k].made) {
      if at.None? {
        AddPairsNumbered(s.queue[k], s.nextSource, Made(e.made, k));
      } else if !e.added {
        SurvivorsNumbered(s.sources, e.family, e.ip, s.queue[k].pairs, s.queue[k].made);
      }
    }
  }

  /** The handler of a reply that some waiting request hears. */
  lemma ReplyChosen(s: State, owner: nat, serial: nat, good: bool, records: seq<Option<nat>>) returns (k: nat, p: nat)
    requires Inv(s) && exists k, p :: Attached(s, k, p, owner, serial)
    ensures Attached(s, k, p, owner, serial) && s.queue[k].id == owner
    ensures |s.queue[k].pairs[p].slots| == MAX_NUM_RESOLVED
    ensures Step(s, Reply(owner, serial, good, records)) == OnReply(s, k, p, good, records)
  {
    var j, q :| Attached(s, j, q, owner, serial);
    assert RequestOk(s.sources, s.queue[j]);
    assert s.queue[j].pairs[q].listening;
    k, p :| Attached(s, k, p, owner, serial) && s.queue[k].pairs[p].listening
            && Step(s, Reply(owner, serial, good, records)) == OnReply(s, k, p, good, records);
    assert RequestOk(s.sources, s.queue[k]);
  }

  /** Any other reply changes nothing. */
  lemma ReplyUnheard(s: State, owner: nat, serial: nat, good: bool, records: seq<Option<nat>>)
    requires Inv(s) && !exists k, p :: Attached(s, k, p, owner, serial)
    ensures Step(s, Reply(owner, serial, good, records)) == s
  {
    assert Buried(s);
  }

  /** A timer that some waiting request has. */
  lemma TimerUnheard(s: State, id: nat)
    requires Inv(s) && !Queued(s, id)
    ensures Step(s, Timer(id)) == s
  {
    assert Buried(s);
  }

  lemma TimerNumbered(s: State, k: nat)
    requires Inv(s) && AllNumbered(s.queue) && k < |s.queue|
    ensures AllNumbered(OnTimer(s, k).queue)
  {
    var queue := OnTimer(s, k).queue;
    assert RequestOk(s.sources, s.queue[k]);
    if |queue| == |s.queue| {
      assert forall j :: 0 <= j < |queue| ==> queue[j].pairs == s.queue[j].pairs && queue[j].made == s.queue[j].made;
    } else {
      assert forall j :: 0 <= j < |queue| ==> queue[j] == s.queue[if j < k then j else j + 1];
    }
  }

  lemma ResolveNumbered(s: State, e: Event)
    requires e.Resolve? && AllNumbered(s.queue)
    ensures AllNumbered(OnResolve(s, e).queue)
  {
    var r := OnResolve(s, e).queue[|s.queue|].(pairs := [], made := 0);
    FirstPairsNumbered(s.sources, |s.sources|, r, e.made);
  }

  lemma StepNumbered(s: State, e: Event)
    requires Inv(s) && AllNumbered(s.queue)
    ensures AllNumbered(Step(s, e).queue)
  {
    match e
    case Address(_, _, _, _, _, _) => AddressNumbered(s, e);
    case Resolve(_, _, _, _) => ResolveNumbered(s, e);
    case Reply(owner, serial, good, records) =>
      if exists k, p :: Attached(s, k, p, owner, serial) {
        var k, p := ReplyChosen(s, owner, serial, good, records);
        OnReplyNumbered(s, k, p, good, records);
      } else {
        ReplyUnheard(s, owner, serial, good, records);
      }
    case Timer(id) =>
      if Queued(s, id) {
        var k: nat :| k < |s.queue| && s.queue[k].id == id;
        A.TimerReaches(s, k);
        TimerNumbered(s, k);
      } else {
        TimerUnheard(s, id);
      }
    case Tick =>
    case Dumped =>
    case TimerClosed(_) =>
    case PairClosed(_, _) =>
  }

  /** In every run the pairs of a request have numbers of their own, so a reply has one addressee. */
  lemma {:induction false} RunNumbered(events: seq<Event>)
    ensures AllNumbered(Run(events).queue)
    decreases |events|
  {
    if events != [] {
      RunNumbered(events[..|events| - 1]);
      StepNumbered(Run(events[..|events| - 1]), events[|events| - 1]);
    }
  }

  lemma ReplyReaches(s: State, k: nat, p: nat, good: bool, records: seq<Option<nat>>)
    requires Inv(s) && AllNumbered(s.queue) && k < |s.queue| && p < |s.queue[k].pairs|
    ensures |s.queue[k].pairs[p].slots| == MAX_NUM_RESOLVED
    ensures Step(s, Reply(s.queue[k].id, s.queue[k].pairs[p].serial, good, records)) == OnReply(s, k, p, good, records)
  {
    assert RequestOk(s.sources, s.queue[k]);
    assert Attached(s, k, p, s.queue[k].id, s.queue[k].pairs[p].serial);
    var j, q := ReplyChosen(s, s.queue[k].id, s.queue[k].pairs[p].serial, good, records);
    A.SameRequest(s, j, k);
    assert Numbered(s.queue[k].pairs, s.queue[k].made);
  }
}
