/**
 The shared countdown: lookups answer in any order, each once, and the answer that brings the
 counter to zero hands all resolved candidates on.
 */
module ResolutionRuns {
  import opened Types
  import opened ResolutionGroups

  datatype Answer = Answer(group: nat, results: seq<Result>)

  /** `answered` are the lookups that called back, `handed` the lists given to the continuation. */
  datatype State = State(
    cands: seq<Candidate>,
    answered: map<nat, seq<Result>>,
    remaining: nat,
    handed: seq<seq<Candidate>>)

  function Apply(cands: seq<Candidate>, members: seq<nat>, results: seq<Result>): (r: seq<Candidate>)
    ensures |r| == |cands|
    ensures forall i :: 0 <= i < |cands| ==> r[i] == if i in members then Resolved(cands[i], results) else cands[i]
  {
    seq(|cands|, i requires 0 <= i < |cands| => if i in members then Resolved(cands[i], results) else cands[i])
  }

  /** on_candidates_resolved passes on the candidates that still have an interface. */
  function Forward(cands: seq<Candidate>): seq<Candidate> {
    if cands == [] then []
    else
      var n := |cands| - 1;
      var r := Forward(cands[..n]);
      if cands[n].ifIdx == 0 then r else r + [cands[n]]
  }

  function Start(cands: seq<Candidate>, groups: seq<Group>): State {
    State(cands, map[], |groups|, [])
  }

  /** One on_candidate_resolved; a lookup calls back once. */
  function Step(groups: seq<Group>, s: State, a: Answer): State {
    if a.group >= |groups| || a.group in s.answered || s.remaining == 0 then s
    else
      var cands := Apply(s.cands, groups[a.group].members, a.results);
      var left := s.remaining - 1;
      State(cands, s.answered[a.group := a.results], left, if left == 0 then s.handed + [Forward(cands)] else s.handed)
  }

  function Run(cands: seq<Candidate>, groups: seq<Group>, answers: seq<Answer>): State {
    if answers == [] then Start(cands, groups)
    else Step(groups, Run(cands, groups, answers[..|answers| - 1]), answers[|answers| - 1])
  }

  // ---------------------------------------------------------------- what every order keeps

  /** A candidate is resolved by its lookup's answer and untouched before it. */
  ghost predicate Tracked(orig: seq<Candidate>, groups: seq<Group>, s: State, g: nat, i: nat)
    requires g < |groups| && i < |orig| == |s.cands|
  {
    s.cands[i] == if g in s.answered then Resolved(orig[i], s.answered[g]) else orig[i]
  }

  ghost predicate Inv(orig: seq<Candidate>, groups: seq<Group>, s: State) {
    && |s.cands| == |orig|
    && (forall g :: g in s.answered ==> g < |groups|)
    && s.remaining == |groups| - |s.answered|
    && s.handed == (if s.remaining == 0 && groups != [] then [Forward(s.cands)] else [])
    && (forall g, i :: 0 <= g < |groups| && 0 <= i < |orig| && i in groups[g].members ==>
          Tracked(orig, groups, s, g, i))
  }

  /** An answer changes the members of its own group and nobody else. */
  lemma StepTracks(orig: seq<Candidate>, groups: seq<Group>, s: State, a: Answer, g: nat, i: nat)
    requires Grouped(orig, groups, |orig|) && Inv(orig, groups, s)
    requires a.group < |groups| && a.group !in s.answered && s.remaining > 0
    requires g < |groups| && i < |orig| && i in groups[g].members
    ensures Tracked(orig, groups, Step(groups, s, a), g, i)
  {
    assert Tracked(orig, groups, s, g, i);
    GroupsPartition(orig, groups, i);
    var s' := Step(groups, s, a);
    if g == a.group {
      assert s'.cands[i] == Resolved(s.cands[i], a.results) && s.cands[i] == orig[i];
    } else {
      assert i !in groups[a.group].members;
      assert s'.cands[i] == s.cands[i];
    }
  }

  lemma OneMoreAnswered(answered: map<nat, seq<Result>>, g: nat, results: seq<Result>)
    requires g !in answered
    ensures |answered[g := results]| == |answered| + 1
  {
    assert answered[g := results].Keys == answered.Keys + {g};
  }

  lemma StepKeeps(orig: seq<Candidate>, groups: seq<Group>, s: State, a: Answer)
    requires Grouped(orig, groups, |orig|) && Inv(orig, groups, s)
    ensures Inv(orig, groups, Step(groups, s, a))
  {
    if a.group < |groups| && a.group !in s.answered && s.remaining > 0 {
      var s' := Step(groups, s, a);
      OneMoreAnswered(s.answered, a.group, a.results);
      forall g, i | 0 <= g < |groups| && 0 <= i < |orig| && i in groups[g].members
        ensures Tracked(orig, groups, s', g, i)
      {
        StepTracks(orig, groups, s, a, g, i);
      }
    }
  }

  lemma {:induction false} RunKeeps(orig: seq<Candidate>, groups: seq<Group>, answers: seq<Answer>)
    requires Grouped(orig, groups, |orig|)
    ensures Inv(orig, groups, Run(orig, groups, answers))
    decreases |answers|
  {
    if answers != [] {
      RunKeeps(orig, groups, answers[..|answers| - 1]);
      StepKeeps(orig, groups, Run(orig, groups, answers[..|answers| - 1]), answers[|answers| - 1]);
    }
  }

  /** In every order of answers the counter is the number of lookups outstanding, and the
      continuation has run exactly once if all answered, and not at all before. */
  lemma ContinuationOnce(orig: seq<Candidate>, groups: seq<Group>, answers: seq<Answer>)
    requires Grouped(orig, groups, |orig|)
    ensures var s := Run(orig, groups, answers);
            && s.remaining == |groups| - |s.answered|
            && |s.handed| == (if groups != [] && |s.answered| == |groups| then 1 else 0)
  {
    RunKeeps(orig, groups, answers);
  }

  // ---------------------------------------------------------------- what is handed on

  lemma {:induction false} ForwardIff(cands: seq<Candidate>, c: Candidate)
    ensures c in Forward(cands) <==> c in cands && c.ifIdx != 0
  {
    if cands != [] {
      var n := |cands| - 1;
      ForwardIff(cands[..n], c);
      assert cands == cands[..n] + [cands[n]];
    }
  }

  /** What is handed on keeps the order of the candidates. */
  lemma {:induction false} ForwardInOrder(a: seq<Candidate>, b: seq<Candidate>)
    ensures Forward(a + b) == Forward(a) + Forward(b)
    decreases |b|
  {
    if b == [] {
      assert a + b == a;
    } else {
      var n := |b| - 1;
      assert (a + b)[..|a + b| - 1] == a + b[..n];
      ForwardInOrder(a, b[..n]);
    }
  }

  /** Result `k` is the first that suits the candidate. */
  ghost predicate FirstToSuit(c: Candidate, results: seq<Result>, k: nat) {
    k < |results| && Suits(c, results[k]) && forall j :: 0 <= j < k ==> !Suits(c, results[j])
  }

  lemma ResolvedIs(c: Candidate, results: seq<Result>)
    ensures Resolved(c, results).ifIdx != 0 <==> c.ifIdx != 0 && exists k: nat :: FirstToSuit(c, results, k)
    ensures forall k: nat :: FirstToSuit(c, results, k) ==> Resolved(c, results) == c.(dst := results[k].address)
  {
    FirstMatchIs(c, results);
    if FirstMatch(c, results).Some? {
      var k: nat :| k < |results| && results[k].address == FirstMatch(c, results).value
                    && Suits(c, results[k]) && forall j :: 0 <= j < k ==> !Suits(c, results[j]);
      assert FirstToSuit(c, results, k);
      forall j: nat | FirstToSuit(c, results, j) ensures j == k {
      }
    }
  }

  /** A candidate survives exactly when some address of its lookup suits its interface and family (and
      it had an interface at all), and it carries the first such address. */
  lemma SurvivesIff(orig: seq<Candidate>, groups: seq<Group>, answers: seq<Answer>, g: nat, i: nat)
    requires Grouped(orig, groups, |orig|) && g < |groups| && i < |orig| && i in groups[g].members
    ensures var s := Run(orig, groups, answers);
            g in s.answered ==>
            var c, results := orig[i], s.answered[g];
            && |s.cands| == |orig|
            && (s.cands[i].ifIdx != 0 <==> c.ifIdx != 0 && exists k: nat :: FirstToSuit(c, results, k))
            && (forall k: nat :: FirstToSuit(c, results, k) ==> s.cands[i] == c.(dst := results[k].address))
            && (s.handed != [] ==> s.handed == [Forward(s.cands)])
            && (s.handed != [] && s.cands[i].ifIdx != 0 ==> s.cands[i] in s.handed[0])
  {
    RunKeeps(orig, groups, answers);
    var s := Run(orig, groups, answers);
    assert Tracked(orig, groups, s, g, i);
    ForwardIff(s.cands, s.cands[i]);
    if g in s.answered {
      ResolvedIs(orig[i], s.answered[g]);
    }
  }

  // ---------------------------------------------------------------- the callback in place

  class Lookup {
    const cands: array<Candidate>
    const groups: seq<Group>
    var remaining: nat
    ghost var model: State

    ghost predicate Valid()
      reads this, cands
    {
      && model.cands == cands[..] && model.remaining == remaining
      && (forall g :: 0 <= g < |groups| ==> Within(groups[g].members, cands.Length))
    }

    /** nt_resolve_candidates up to the lookups. */
    constructor (list: seq<Candidate>)
      ensures Valid() && fresh(cands) && Grouped(list, groups, |list|) && model == Start(list, groups)
    {
      var gs, n := GroupCandidates(list);
      var a := new Candidate[|list|](i requires 0 <= i < |list| => list[i]);
      cands, groups, remaining := a, gs, n;
      model := Start(list, gs);
      assert a[..] == list;
      forall g | 0 <= g < |gs| ensures Within(gs[g].members, |list|) {
        forall k | 0 <= k < |gs[g].members| ensures gs[g].members[k] < |list| {
          MembersIff(list, gs[g], |list|, gs[g].members[k]);
        }
      }
    }

    method OnResolved(g: nat, results: seq<Result>) returns (handed: Option<seq<Candidate>>)
      requires Valid() && g < |groups| && g !in model.answered && remaining > 0
      modifies this, cands
      ensures Valid() && model == Step(groups, old(model), Answer(g, results))
      ensures handed.Some? <==> remaining == 0
      ensures handed.Some? ==> model.handed == old(model.handed) + [handed.value]
    {
      ResolveMembers(cands, groups[g].members, results);
      model := Step(groups, model, Answer(g, results));
      assert cands[..] == model.cands;
      remaining := remaining - 1;
      handed := None;
      if remaining == 0 {
        var list := Collect();
        handed := Some(list);
      }
    }

    method Collect() returns (list: seq<Candidate>)
      ensures list == Forward(cands[..])
    {
      list := [];
      var i := 0;
      while i < cands.Length
        invariant i <= cands.Length && list == Forward(cands[..i])
      {
        assert cands[..i + 1][..i] == cands[..i];
        if cands[i].ifIdx != 0 {
          list := list + [cands[i]];
        }
        i := i + 1;
      }
      assert cands[..i] == cands[..];
    }
  }
}
