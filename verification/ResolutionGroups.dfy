/**
 Name resolution of candidates: candidates with the same name and port share one lookup, all
 lookups share one countdown, and the last callback hands the resolved candidates on.
 */
module ResolutionGroups {
  import opened Types

  datatype Family = V4 | V6

  /** `family` is that of the source literal, `dst` first the name and then the address. */
  datatype Candidate = Candidate(dst: string, port: nat, ifIdx: nat, family: Option<Family>)

  /** One address of a lookup; `printable` says whether getnameinfo succeeded on it. */
  datatype Result = Result(ifIdx: nat, family: Family, address: string, printable: bool)

  datatype Group = Group(name: string, port: nat, members: seq<nat>)

  // ---------------------------------------------------------------- grouping

  predicate HasKey(g: Group, c: Candidate) { g.name == c.dst && g.port == c.port }

  /** The candidates with a group's key among the first `n`, in list order. */
  function Members(cands: seq<Candidate>, g: Group, n: nat): seq<nat>
    requires n <= |cands|
  {
    if n == 0 then []
    else
      var r := Members(cands, g, n - 1);
      if HasKey(g, cands[n - 1]) then r + [n - 1] else r
  }

  lemma {:induction false} MembersIff(cands: seq<Candidate>, g: Group, n: nat, i: nat)
    requires n <= |cands|
    ensures i in Members(cands, g, n) <==> i < n && HasKey(g, cands[i])
  {
    if n > 0 {
      MembersIff(cands, g, n - 1, i);
    }
  }

  ghost predicate Covered(groups: seq<Group>, c: Candidate) {
    exists g :: 0 <= g < |groups| && HasKey(groups[g], c)
  }

  /** Groups hold exactly the candidates with their key, no two have the same key, and every one of
      the first `n` candidates has a group. */
  ghost predicate Grouped(cands: seq<Candidate>, groups: seq<Group>, n: nat)
    requires n <= |cands|
  {
    && (forall g :: 0 <= g < |groups| ==> groups[g].members == Members(cands, groups[g], n))
    && (forall g, h :: 0 <= g < h < |groups| ==> groups[g].name != groups[h].name || groups[g].port != groups[h].port)
    && (forall i :: 0 <= i < n ==> Covered(groups, cands[i]))
  }

  /** Grouping is a partition: each candidate is a member of exactly one group, that of its name
      and port. */
  lemma GroupsPartition(cands: seq<Candidate>, groups: seq<Group>, i: nat)
    requires Grouped(cands, groups, |cands|) && i < |cands|
    ensures exists g :: 0 <= g < |groups| && i in groups[g].members
    ensures forall g, h :: 0 <= g < |groups| && 0 <= h < |groups|
                           && i in groups[g].members && i in groups[h].members ==>
                g == h
    ensures forall g :: 0 <= g < |groups| ==>
              (i in groups[g].members <==> groups[g].name == cands[i].dst && groups[g].port == cands[i].port)
  {
    forall g | 0 <= g < |groups| ensures i in groups[g].members <==> HasKey(groups[g], cands[i]) {
      MembersIff(cands, groups[g], |cands|, i);
    }
    assert Covered(groups, cands[i]);
  }

  /** A group has the same members whatever it lists. */
  lemma {:induction false} MembersByKey(cands: seq<Candidate>, g: Group, h: Group, n: nat)
    requires n <= |cands| && g.name == h.name && g.port == h.port
    ensures Members(cands, g, n) == Members(cands, h, n)
  {
    if n > 0 {
      MembersByKey(cands, g, h, n - 1);
    }
  }

  lemma {:induction false} NoMembers(cands: seq<Candidate>, groups: seq<Group>, g: Group, n: nat)
    requires n <= |cands| && Grouped(cands, groups, n)
    requires forall h :: 0 <= h < |groups| ==> groups[h].name != g.name || groups[h].port != g.port
    ensures Members(cands, g, n) == []
  {
    if Members(cands, g, n) != [] {
      var i := Members(cands, g, n)[0];
      MembersIff(cands, g, n, i);
      assert false;
    }
  }

  /** The candidate joins the group of its key. */
  lemma JoinGroup(cands: seq<Candidate>, groups: seq<Group>, i: nat, g: nat)
    requires i < |cands| && Grouped(cands, groups, i) && g < |groups| && HasKey(groups[g], cands[i])
    ensures Grouped(cands, groups[g := groups[g].(members := groups[g].members + [i])], i + 1)
  {
    var next := groups[g := groups[g].(members := groups[g].members + [i])];
    var n := i + 1;
    forall h | 0 <= h < |next| ensures next[h].members == Members(cands, next[h], n) {
      MembersByKey(cands, groups[h], next[h], i);
    }
    KeepCovered(cands, groups, next, i);
    assert HasKey(next[g], cands[i]);
  }

  lemma KeepCovered(cands: seq<Candidate>, groups: seq<Group>, next: seq<Group>, i: nat)
    requires i <= |cands| && Grouped(cands, groups, i) && |groups| <= |next|
    requires forall h :: 0 <= h < |groups| ==> next[h].name == groups[h].name && next[h].port == groups[h].port
    ensures forall j :: 0 <= j < i ==> Covered(next, cands[j])
  {
    forall j | 0 <= j < i ensures Covered(next, cands[j]) {
      var h :| 0 <= h < |groups| && HasKey(groups[h], cands[j]);
      assert HasKey(next[h], cands[j]);
    }
  }

  /** Or opens one. */
  lemma NewGroup(cands: seq<Candidate>, groups: seq<Group>, i: nat)
    requires i < |cands| && Grouped(cands, groups, i)
    requires forall g :: 0 <= g < |groups| ==> !HasKey(groups[g], cands[i])
    ensures Grouped(cands, groups + [Group(cands[i].dst, cands[i].port, [i])], i + 1)
  {
    var single := Group(cands[i].dst, cands[i].port, [i]);
    var next := groups + [single];
    NoMembers(cands, groups, single, i);
    KeepCovered(cands, groups, next, i);
    assert HasKey(next[|groups|], cands[i]);
  }

  /** The first group with the candidate's name and port, if there is one. */
  method FindGroup(groups: seq<Group>, c: Candidate) returns (g: nat)
    ensures g <= |groups| && (g < |groups| ==> HasKey(groups[g], c))
    ensures forall h :: 0 <= h < g ==> !HasKey(groups[h], c)
  {
    g := 0;
    while g < |groups| && !HasKey(groups[g], c)
      invariant g <= |groups|
      invariant forall h :: 0 <= h < g ==> !HasKey(groups[h], c)
    {
      g := g + 1;
    }
  }

  /** One candidate finds its group or opens a new one. */
  method PlaceCandidate(cands: seq<Candidate>, groups: seq<Group>, i: nat) returns (next: seq<Group>)
    requires i < |cands| && Grouped(cands, groups, i)
    ensures Grouped(cands, next, i + 1) && |groups| <= |next| <= |groups| + 1
  {
    var g := FindGroup(groups, cands[i]);
    if g < |groups| {
      JoinGroup(cands, groups, i, g);
      next := groups[g := groups[g].(members := groups[g].members + [i])];
    } else {
      NewGroup(cands, groups, i);
      next := groups + [Group(cands[i].dst, cands[i].port, [i])];
    }
  }

  /** nt_resolve_candidates: the partition by (name, port) and the number of lookups started. */
  method GroupCandidates(cands: seq<Candidate>) returns (groups: seq<Group>, remaining: nat)
    ensures Grouped(cands, groups, |cands|)
    ensures remaining == |groups|
  {
    groups, remaining := [], 0;
    var i := 0;
    while i < |cands|
      invariant i <= |cands| && Grouped(cands, groups, i) && remaining == |groups|
    {
      var next := PlaceCandidate(cands, groups, i);
      if |next| > |groups| {
        remaining := remaining + 1;
      }
      groups, i := next, i + 1;
    }
  }

  // ---------------------------------------------------------------- one lookup

  /** An address suits a candidate of its interface whose source is not of the other family. */
  predicate Matches(c: Candidate, r: Result) {
    && r.printable && r.ifIdx == c.ifIdx
    && !(r.family == V4 && c.family == Some(V6))
    && !(r.family == V6 && c.family == Some(V4))
  }

  function FirstMatch(c: Candidate, results: seq<Result>): Option<string> {
    if results == [] then None
    else
      var n := |results| - 1;
      var before := FirstMatch(c, results[..n]);
      if before.Some? then before
      else if Matches(c, results[n]) then Some(results[n].address) else None
  }

  /** A candidate gets the first suitable address, or interface 0 to have it dropped. */
  function Resolved(c: Candidate, results: seq<Result>): Candidate {
    match FirstMatch(c, results)
    case Some(a) => c.(dst := a)
    case None => c.(ifIdx := 0)
  }

  /** Result `k` suits the candidate and no earlier one does. */
  ghost predicate First(c: Candidate, results: seq<Result>, k: nat) {
    k < |results| && Matches(c, results[k]) && forall j :: 0 <= j < k ==> !Matches(c, results[j])
  }

  ghost predicate NoneMatches(c: Candidate, results: seq<Result>) {
    forall j :: 0 <= j < |results| ==> !Matches(c, results[j])
  }

  lemma InFront(c: Candidate, results: seq<Result>, n: nat, k: nat)
    requires n <= |results| && First(c, results[..n], k)
    ensures First(c, results, k) && results[k] == results[..n][k]
  {
    assert forall j :: 0 <= j < n ==> results[..n][j] == results[j];
  }

  lemma AtEnd(c: Candidate, results: seq<Result>)
    requires results != [] && NoneMatches(c, results[..|results| - 1])
    ensures if Matches(c, results[|results| - 1]) then First(c, results, |results| - 1) else NoneMatches(c, results)
  {
    var n := |results| - 1;
    forall j | 0 <= j < n ensures !Matches(c, results[j]) {
      assert results[..n][j] == results[j];
    }
  }

  /** The result is on the candidate's interface, and its source, where it is an address, has the same
      family. */
  predicate Suits(c: Candidate, r: Result) {
    r.printable && c.ifIdx == r.ifIdx && (c.family == None || c.family == Some(r.family))
  }

  lemma MatchesIff(c: Candidate, r: Result)
    ensures Matches(c, r) <==> Suits(c, r)
  {
    match (c.family, r.family)
    case (Some(V4), V6) =>
    case (Some(V6), V4) =>
    case _ =>
  }

  /** A candidate's match is the address of the first result that suits it, and there is none only if
      no result does. */
  lemma FirstMatchIs(c: Candidate, results: seq<Result>)
    ensures FirstMatch(c, results).None? <==> forall j :: 0 <= j < |results| ==> !Suits(c, results[j])
    ensures FirstMatch(c, results).Some? ==>
              exists k: nat :: k < |results| && results[k].address == FirstMatch(c, results).value
                               && Suits(c, results[k]) && forall j :: 0 <= j < k ==> !Suits(c, results[j])
  {
    forall j | 0 <= j < |results| ensures Matches(c, results[j]) <==> Suits(c, results[j]) {
      MatchesIff(c, results[j]);
    }
    FirstMatchFound(c, results);
  }

  lemma {:induction false} FirstMatchFound(c: Candidate, results: seq<Result>)
    ensures FirstMatch(c, results).None? <==> NoneMatches(c, results)
    ensures FirstMatch(c, results).Some? ==>
              exists k: nat :: First(c, results, k) && results[k].address == FirstMatch(c, results).value
  {
    if results != [] {
      var n := |results| - 1;
      var front := results[..n];
      FirstMatchFound(c, front);
      if FirstMatch(c, front).Some? {
        var k: nat :| First(c, front, k) && front[k].address == FirstMatch(c, front).value;
        InFront(c, results, n, k);
      } else {
        AtEnd(c, results);
      }
    }
  }

  ghost predicate Within(ix: seq<nat>, n: nat) {
    forall k :: 0 <= k < |ix| ==> ix[k] < n
  }

  /** What one result does to the candidates still unresolved. */
  method ApplyResult(a: array<Candidate>, left: seq<nat>, r: Result) returns (kept: seq<nat>)
    requires Within(left, a.Length)
    modifies a
    ensures forall i :: 0 <= i < a.Length ==>
              a[i] == if i in left && Matches(old(a[i]), r) then old(a[i]).(dst := r.address) else old(a[i])
    ensures Within(kept, a.Length)
    ensures forall i :: 0 <= i < a.Length ==> (i in kept <==> i in left && !Matches(old(a[i]), r))
  {
    kept := [];
    if !r.printable {
      return left;
    }
    var k := 0;
    while k < |left|
      invariant k <= |left|
      invariant forall i :: 0 <= i < a.Length ==>
        a[i] == if i in left[..k] && Matches(old(a[i]), r) then old(a[i]).(dst := r.address) else old(a[i])
      invariant Within(kept, a.Length)
      invariant forall i :: 0 <= i < a.Length ==> (i in kept <==> i in left[..k] && !Matches(old(a[i]), r))
    {
      var i := left[k];
      assert left[..k + 1] == left[..k] + [i];
      if r.ifIdx != a[i].ifIdx || (r.family == V4 && a[i].family == Some(V6))
         || (r.family == V6 && a[i].family == Some(V4)) {
        kept := kept + [i];
      } else {
        a[i] := a[i].(dst := r.address);
      }
      k := k + 1;
    }
    assert left[..k] == left;
  }

  /** on_candidate_resolved up to the countdown. */
  method ResolveMembers(a: array<Candidate>, members: seq<nat>, results: seq<Result>)
    requires Within(members, a.Length)
    modifies a
    ensures forall i :: 0 <= i < a.Length ==>
              a[i] == if i in members then Resolved(old(a[i]), results) else old(a[i])
  {
    var left := members;
    var n := 0;
    while n < |results|
      invariant n <= |results| && Within(left, a.Length)
      invariant forall i :: 0 <= i < a.Length ==>
        (i in left <==> i in members && FirstMatch(old(a[i]), results[..n]).None?)
      invariant forall i :: 0 <= i < a.Length ==>
        a[i] == if i in members && FirstMatch(old(a[i]), results[..n]).Some?
                then old(a[i]).(dst := FirstMatch(old(a[i]), results[..n]).value) else old(a[i])
    {
      assert results[..n + 1][..n] == results[..n];
      left := ApplyResult(a, left, results[n]);
      n := n + 1;
    }
    assert results[..n] == results;
    DropUnresolved(a, left);
  }

  /** What found no address gets interface 0. */
  method DropUnresolved(a: array<Candidate>, left: seq<nat>)
    requires Within(left, a.Length)
    modifies a
    ensures forall i :: 0 <= i < a.Length ==> a[i] == if i in left then old(a[i]).(ifIdx := 0) else old(a[i])
  {
    var k := 0;
    while k < |left|
      invariant k <= |left|
      invariant forall i :: 0 <= i < a.Length ==> a[i] == if i in left[..k] then old(a[i]).(ifIdx := 0) else old(a[i])
    {
      assert left[..k + 1] == left[..k] + [left[k]];
      a[left[k]] := a[left[k]].(ifIdx := 0);
      k := k + 1;
    }
    assert left[..k] == left;
  }
}
