/**
 The resolver below the resolution groups: its callbacks, restricted to the lookups of one flow, are
 a run of answers in which no lookup answers twice. So the countdown ignores none of them.
 */
module ResolutionLink {
  import opened Types
  import V = Resolver
  import P = ResolverProofs
  import G = ResolutionGroups
  import L = ResolutionRuns

  /** `ids` names the request of each group's lookup. */
  ghost predicate Distinct(ids: seq<nat>) { forall i, j :: 0 <= i < j < |ids| ==> ids[i] != ids[j] }

  /** The group whose lookup a request is, if it is one of this flow. */
  function GroupOf(ids: seq<nat>, req: nat): (r: Option<nat>)
    ensures r.Some? ==> r.value < |ids| && ids[r.value] == req
    ensures r.None? ==> req !in ids
  {
    if ids == [] then None
    else if ids[|ids| - 1] == req then Some(|ids| - 1)
    else GroupOf(ids[..|ids| - 1], req)
  }

  /** The answers that the callbacks give to the groups; `show` turns results into addresses. */
  function Answers(callbacks: seq<V.Callback>, ids: seq<nat>, show: V.Callback -> seq<G.Result>): seq<L.Answer> {
    if callbacks == [] then []
    else
      var n := |callbacks| - 1;
      var rest := Answers(callbacks[..n], ids, show);
      var g := GroupOf(ids, callbacks[n].req);
      if g.Some? then rest + [L.Answer(g.value, show(callbacks[n]))] else rest
  }

  ghost predicate Answering(answers: seq<L.Answer>, g: nat) {
    exists i :: 0 <= i < |answers| && answers[i].group == g
  }

  ghost predicate NoneTwice(answers: seq<L.Answer>) {
    forall i, j :: 0 <= i < j < |answers| ==> answers[i].group != answers[j].group
  }

  ghost predicate Once(callbacks: seq<V.Callback>) {
    forall i, j :: 0 <= i < j < |callbacks| ==> callbacks[i].req != callbacks[j].req
  }

  ghost predicate Has(callbacks: seq<V.Callback>, req: nat) {
    exists k :: 0 <= k < |callbacks| && callbacks[k].req == req
  }

  /** Every answer comes from a callback, and every callback of a group's request answers it. */
  lemma {:induction false} AnswersAre(callbacks: seq<V.Callback>, ids: seq<nat>, show: V.Callback -> seq<G.Result>)
    requires Once(callbacks) && Distinct(ids)
    ensures var a := Answers(callbacks, ids, show);
            && NoneTwice(a)
            && (forall i :: 0 <= i < |a| ==> a[i].group < |ids| && Has(callbacks, ids[a[i].group]))
            && (forall g :: 0 <= g < |ids| && Has(callbacks, ids[g]) ==> Answering(a, g))
  {
    if callbacks != [] {
      var n := |callbacks| - 1;
      var front, c := callbacks[..n], callbacks[n];
      AnswersAre(front, ids, show);
      var b, a := Answers(front, ids, show), Answers(callbacks, ids, show);
      forall r | Has(front, r) ensures Has(callbacks, r) && r != c.req {
        var k :| 0 <= k < |front| && front[k].req == r;
        assert callbacks[k].req == r;
      }
      assert callbacks[n].req == c.req && Has(callbacks, c.req);
      forall g | 0 <= g < |ids| && Has(callbacks, ids[g]) ensures Answering(a, g) {
        if Has(front, ids[g]) {
          var i :| 0 <= i < |b| && b[i].group == g;
          assert a[i].group == g;
        } else {
          assert ids[g] == c.req;
          assert a[|b|].group == g;
        }
      }
    }
  }

  /** No answer was ignored: exactly the groups of the answers have answered. */
  ghost predicate Taken(answers: seq<L.Answer>, s: L.State) {
    forall g: nat :: g in s.answered <==> Answering(answers, g)
  }

  lemma {:induction false} BelowCount(n: nat, keys: set<nat>)
    requires forall k :: k in keys ==> k < n
    ensures |keys| <= n
    ensures |keys| == n <==> forall k :: 0 <= k < n ==> k in keys
  {
    if n == 0 {
      assert keys == {};
    } else {
      var rest := keys - {n - 1};
      BelowCount(n - 1, rest);
      assert forall k :: 0 <= k < n - 1 ==> (k in rest <==> k in keys);
      if n - 1 in keys {
        assert |keys| == |rest| + 1;
      } else {
        assert rest == keys;
      }
    }
  }

  /** While a group has not answered, the counter is above zero. */
  lemma Outstanding(orig: seq<G.Candidate>, groups: seq<G.Group>, s: L.State, g: nat)
    requires L.Inv(orig, groups, s) && g < |groups| && g !in s.answered
    ensures s.remaining > 0
  {
    BelowCount(|groups|, s.answered.Keys);
  }

  lemma StepTakes(orig: seq<G.Candidate>, groups: seq<G.Group>, s: L.State, front: seq<L.Answer>, a: L.Answer)
    requires L.Inv(orig, groups, s) && Taken(front, s)
    requires a.group < |groups| && !Answering(front, a.group)
    ensures Taken(front + [a], L.Step(groups, s, a))
  {
    Outstanding(orig, groups, s, a.group);
    var all := front + [a];
    assert all[|front|] == a;
    forall g: nat ensures Answering(all, g) <==> Answering(front, g) || g == a.group {
      if Answering(front, g) {
        var i :| 0 <= i < |front| && front[i].group == g;
        assert all[i].group == g;
      }
    }
  }

  lemma {:induction false} NoneIgnored(orig: seq<G.Candidate>, groups: seq<G.Group>, answers: seq<L.Answer>)
    requires G.Grouped(orig, groups, |orig|) && NoneTwice(answers)
    requires forall i :: 0 <= i < |answers| ==> answers[i].group < |groups|
    ensures Taken(answers, L.Run(orig, groups, answers))
    decreases |answers|
  {
    if answers != [] {
      var n := |answers| - 1;
      var front := answers[..n];
      NoneIgnored(orig, groups, front);
      L.RunKeeps(orig, groups, front);
      assert front + [answers[n]] == answers;
      StepTakes(orig, groups, L.Run(orig, groups, front), front, answers[n]);
    }
  }

  ghost predicate AllHave(callbacks: seq<V.Callback>, ids: seq<nat>) {
    forall g :: 0 <= g < |ids| ==> Has(callbacks, ids[g])
  }

  /** For every run of the resolver, with the request of each group's lookup in `ids`: the countdown
      ignores no callback, and the continuation has run, once, if and only if all lookups of the flow
      were called back. */
  lemma LookupsContinueOnce(
      events: seq<V.Event>, ids: seq<nat>, show: V.Callback -> seq<G.Result>,
      orig: seq<G.Candidate>, groups: seq<G.Group>)
    requires G.Grouped(orig, groups, |orig|) && Distinct(ids) && |ids| == |groups|
    ensures var callbacks := P.Run(events).callbacks;
            var s := L.Run(orig, groups, Answers(callbacks, ids, show));
            && (forall g: nat :: g in s.answered <==> g < |groups| && Has(callbacks, ids[g]))
            && |s.handed| == (if groups != [] && AllHave(callbacks, ids) then 1 else 0)
  {
    var callbacks := P.Run(events).callbacks;
    assert Once(callbacks) by {
      assert P.Accounted(P.Run(events));
    }
    Continues(callbacks, ids, show, orig, groups);
  }

  lemma Continues(
      callbacks: seq<V.Callback>, ids: seq<nat>, show: V.Callback -> seq<G.Result>,
      orig: seq<G.Candidate>, groups: seq<G.Group>)
    requires G.Grouped(orig, groups, |orig|) && Distinct(ids) && |ids| == |groups| && Once(callbacks)
    ensures var s := L.Run(orig, groups, Answers(callbacks, ids, show));
            && (forall g: nat :: g in s.answered <==> g < |groups| && Has(callbacks, ids[g]))
            && |s.handed| == (if groups != [] && AllHave(callbacks, ids) then 1 else 0)
  {
    var answers := Answers(callbacks, ids, show);
    AnswersAre(callbacks, ids, show);
    NoneIgnored(orig, groups, answers);
    L.RunKeeps(orig, groups, answers);
    BelowCount(|groups|, L.Run(orig, groups, answers).answered.Keys);
  }
}
