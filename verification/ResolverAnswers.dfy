/**
 What a lookup is told: exactly the addresses stored for it, or for a literal its own, with every
 source that may be used; and when it is told nothing.
 */
module ResolverAnswers {
  import opened Types
  import opened DnsReplies
  import opened Resolver
  import opened ResolverProofs

  // ---------------------------------------------------------------- results of names

  lemma {:induction false} SlotMembers(src: Source, slots: seq<Option<nat>>, i: nat, x: Res)
    requires Prefix(slots) && i <= |slots|
    ensures x in SlotResults(src, slots, i) <==>
            x.source == src && !src.Deprecated() && exists j :: i <= j < |slots| && slots[j] == Some(x.dst)
    ensures i == 0 ==> (x in SlotResults(src, slots, i) <==>
                          x.source == src && !src.Deprecated() && Holds(slots, x.dst))
    decreases |slots| - i
  {
    if i < |slots| && slots[i].Some? && !src.Deprecated() {
      SlotMembers(src, slots, i + 1, x);
      assert Res(src, slots[i].value) in SlotResults(src, slots, i);
    }
  }

  ghost predicate Holds(slots: seq<Option<nat>>, d: nat) { exists j :: 0 <= j < |slots| && slots[j] == Some(d) }

  lemma FromStep(sources: seq<Source>, pairs: seq<Pair>, n: nat, x: Res)
    requires Anchored(sources, pairs) && 0 < n <= |pairs|
    ensures From(sources, pairs, n, x) <==>
            || From(sources, pairs, n - 1, x)
            || (x.source == SourceOf(sources, pairs[n - 1].src) && Holds(pairs[n - 1].slots, x.dst))
  {
    if From(sources, pairs, n - 1, x) {
      var p, i :| 0 <= p < n - 1 && 0 <= i < |pairs[p].slots| && x.source == SourceOf(sources, pairs[p].src)
                  && pairs[p].slots[i] == Some(x.dst);
    }
  }

  /** What the first `n` pairs hold, with the sources that are not deprecated. */
  lemma {:induction false} PairMembers(sources: seq<Source>, pairs: seq<Pair>, n: nat, x: Res)
    requires forall p :: 0 <= p < |pairs| ==> Prefix(pairs[p].slots)
    requires Anchored(sources, pairs) && n <= |pairs|
    ensures x in PairResults(sources, pairs, n) <==> !x.source.Deprecated() && From(sources, pairs, n, x)
  {
    if n > 0 {
      PairMembers(sources, pairs, n - 1, x);
      SlotMembers(SourceOf(sources, pairs[n - 1].src), pairs[n - 1].slots, 0, x);
      FromStep(sources, pairs, n, x);
    }
  }

  /** A listed address is the one its id stands for. */
  lemma SourceById(sources: seq<Source>, next: nat, s: Source)
    requires SourcesOk(sources, next) && s in sources
    ensures Listed(sources, s.id) && SourceOf(sources, s.id) == s
  {
    var k :| 0 <= k < |sources| && sources[k] == s;
    assert Listed(sources, s.id);
    var t := SourceOf(sources, s.id);
    var j :| 0 <= j < |sources| && sources[j] == t;
  }

  /** A name lookup gets an address with a source if and only if the source is listed and not
      deprecated, and one of its pairs has the address in a slot. */
  lemma NameResultIff(sources: seq<Source>, next: nat, pairs: seq<Pair>, x: Res)
    requires SourcesOk(sources, next) && PairsOk(pairs) && Anchored(sources, pairs)
    ensures x in PairResults(sources, pairs, |pairs|) <==>
            x.source in sources && !x.source.Deprecated() && Seen(pairs, x.source.id, x.dst)
  {
    PairMembers(sources, pairs, |pairs|, x);
    if From(sources, pairs, |pairs|, x) {
      var p, i :| 0 <= p < |pairs| && 0 <= i < |pairs[p].slots| && x.source == SourceOf(sources, pairs[p].src)
                  && pairs[p].slots[i] == Some(x.dst);
      assert Seen(pairs, x.source.id, x.dst);
    }
    if x.source in sources && Seen(pairs, x.source.id, x.dst) {
      var p, i :| 0 <= p < |pairs| && 0 <= i < |pairs[p].slots|
                  && pairs[p].src == x.source.id && pairs[p].slots[i] == Some(x.dst);
      SourceById(sources, next, x.source);
      assert From(sources, pairs, |pairs|, x);
    }
  }

  // ---------------------------------------------------------------- results of literals and localhost

  lemma {:induction false} TargetMembers(sources: seq<Source>, r: Request, target: nat, x: Res)
    ensures x in ForTarget(sources, r, target) <==>
            && x.source in sources && !x.source.Deprecated() && x.dst == target
            && (r.kind == Literal ==> r.family == Some(x.source.family))
  {
    if sources != [] {
      TargetMembers(sources[1..], r, target, x);
      assert x.source in sources <==> x.source == sources[0] || x.source in sources[1..];
    }
  }

  lemma {:induction false} DirectResultIff(sources: seq<Source>, r: Request, targets: seq<nat>, x: Res)
    ensures x in DirectResults(sources, r, targets) <==>
            && x.source in sources && !x.source.Deprecated() && x.dst in targets
            && (r.kind == Literal ==> r.family == Some(x.source.family))
  {
    if targets != [] {
      DirectResultIff(sources, r, targets[1..], x);
      TargetMembers(sources, r, targets[0], x);
      assert x.dst in targets <==> x.dst == targets[0] || x.dst in targets[1..];
    }
  }

  // ---------------------------------------------------------------- what a timer tells

  /** The lookup is to be told of this address with this source. */
  ghost predicate Due(sources: seq<Source>, r: Request, x: Res) {
    && x.source in sources && !x.source.Deprecated()
    && match r.kind
       case Name => Seen(r.pairs, x.source.id, x.dst)
       case Literal => r.family == Some(x.source.family) && x.dst in r.targets
       case Localhost => x.dst in r.targets
  }

  /** A name that no reply has settled was too slow; otherwise the results are all that is due. */
  ghost predicate Right(sources: seq<Source>, r: Request, c: Callback) {
    && c.req == r.id && c.kind == r.kind && c.targets == r.targets
    && if r.kind == Name && !r.rearmed then c.code == TimedOut && c.results == []
       else
         && (forall x :: x in c.results <==> Due(sources, r, x))
         && c.code == (if exists x :: Due(sources, r, x) then Ok else Error)
  }

  lemma AnswerIsRight(s: State, k: nat)
    requires Inv(s) && k < |s.queue|
    ensures Anchored(s.sources, s.queue[k].pairs)
    ensures var r, a := s.queue[k], Answer(s, s.queue[k]);
            && (a.None? <==> r.kind != Name && s.sources == [] && !s.dumped)
            && (a.Some? ==> Right(s.sources, r, Callback(r.id, r.kind, r.targets, a.value.0, a.value.1)))
  {
    var r := s.queue[k];
    assert RequestOk(s.sources, r);
    var a := Answer(s, r);
    if a.Some? && !(r.kind == Name && !r.rearmed) {
      var results := a.value.1;
      forall x ensures x in results <==> Due(s.sources, r, x) {
        ResultsDue(s, r, results, x);
      }
      if results != [] {
        assert results[0] in results;
      }
    }
  }

  lemma ResultsDue(s: State, r: Request, results: seq<Res>, x: Res)
    requires SourcesOk(s.sources, s.nextSource) && RequestOk(s.sources, r)
    requires r.kind == Name ==> results == PairResults(s.sources, r.pairs, |r.pairs|)
    requires r.kind != Name ==> results == if s.sources == [] then [] else DirectResults(s.sources, r, r.targets)
    ensures x in results <==> Due(s.sources, r, x)
  {
    if r.kind == Name {
      NameResultIff(s.sources, s.nextSource, r.pairs, x);
    } else {
      DirectResultIff(s.sources, r, r.targets, x);
    }
  }

  lemma SameRequest(s: State, j: nat, k: nat)
    requires Accounted(s) && j < |s.queue| && k < |s.queue| && s.queue[j].id == s.queue[k].id
    ensures j == k
  {
  }

  lemma TimerReaches(s: State, k: nat)
    requires Inv(s) && k < |s.queue|
    ensures Step(s, Timer(s.queue[k].id)) == OnTimer(s, k)
  {
    assert RequestOk(s.sources, s.queue[k]);
    var id := s.queue[k].id;
    var j :| 0 <= j < |s.queue| && s.queue[j].id == id && s.queue[j].timer && Step(s, Timer(id)) == OnTimer(s, j);
    SameRequest(s, j, k);
  }

  /** In every run, the timer of a waiting lookup calls it back with exactly what is due and takes it
      out of the queue; only a literal or localhost without any address waits for the first dump. */
  lemma TimerAnswers(events: seq<Event>, k: nat)
    requires k < |Run(events).queue|
    ensures var s := Run(events);
            var r := s.queue[k];
            var t := Run(events + [Timer(r.id)]);
            if r.kind != Name && s.sources == [] && !s.dumped then t == s
            else
              && |t.callbacks| == |s.callbacks| + 1 && s.callbacks <= t.callbacks
              && Right(s.sources, r, t.callbacks[|s.callbacks|])
              && t.queue == s.queue[..k] + s.queue[k + 1..]
  {
    var s := Run(events);
    var r := s.queue[k];
    RunStep(events, Timer(r.id));
    TimerReaches(s, k);
    AnswerIsRight(s, k);
    if Answer(s, r).None? {
      assert RequestOk(s.sources, r);
      assert s.queue[k := r.(timer := true)] == s.queue;
    }
  }
}
