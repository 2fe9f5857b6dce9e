/**
 Candidate preparation for multihomed SCTP: the candidates of one destination are merged into
 the first of them by joining their source addresses with commas, and the joined list is taken
 apart again when the socket is bound.
 */
module Multihoming {

  const MAX_LOCAL_ADDR := 64

  datatype Candidate = Candidate(sctp: bool, dst: string, src: string, nrLocal: nat, removed: bool)

  // ---------------------------------------------------------------- joining and splitting

  ghost predicate Plain(x: string) { x != [] && ',' !in x }

  ghost predicate AllPlain(xs: seq<string>) {
    forall i :: 0 <= i < |xs| ==> Plain(xs[i])
  }

  function Join(xs: seq<string>): string {
    if xs == [] then []
    else if |xs| == 1 then xs[0]
    else Join(xs[..|xs| - 1]) + [','] + xs[|xs| - 1]
  }

  /** The first 64 addresses. */
  function Limit(xs: seq<string>): (r: seq<string>)
    ensures |r| == if |xs| < MAX_LOCAL_ADDR then |xs| else MAX_LOCAL_ADDR
  {
    if |xs| <= MAX_LOCAL_ADDR then xs else xs[..MAX_LOCAL_ADDR]
  }

  lemma JoinSnoc(xs: seq<string>, x: string)
    ensures Join(xs + [x]) == if xs == [] then x else Join(xs) + [','] + x
  {
    assert (xs + [x])[..|xs|] == xs;
  }

  /** Length of the leading stretch without a comma. */
  function Span(s: string): (n: nat)
    ensures n <= |s| && ',' !in s[..n] && (n < |s| ==> s[n] == ',')
  {
    if s == [] || s[0] == ',' then 0 else 1 + Span(s[1..])
  }

  /** strtok_r with a comma as delimiter: empty tokens are skipped. */
  function Tokens(s: string): seq<string>
    decreases |s|
  {
    if s == [] then []
    else if s[0] == ',' then Tokens(s[1..])
    else
      var n := Span(s);
      [s[..n]] + Tokens(s[n..])
  }

  lemma {:induction false} SpanOf(x: string, rest: string)
    requires ',' !in x && (rest == [] || rest[0] == ',')
    ensures Span(x + rest) == |x|
    decreases |x|
  {
    if x == [] {
      assert x + rest == rest;
    } else {
      SpanOf(x[1..], rest);
      assert (x + rest)[1..] == x[1..] + rest;
    }
  }

  /** Appending one more address appends one token. */
  lemma {:induction false} TokensSnoc(s: string, x: string)
    requires Plain(x) && s != [] && s[|s| - 1] != ','
    ensures Tokens(s + [','] + x) == Tokens(s) + [x]
    decreases |s|
  {
    var t := s + [','] + x;
    if s[0] == ',' {
      assert t[1..] == s[1..] + [','] + x;
      TokensSnoc(s[1..], x);
    } else {
      var n := Span(s);
      assert t == s[..n] + (s[n..] + [','] + x);
      if n == |s| {
        assert s[n..] + [','] + x == [','] + x;
        SpanOf(s[..n], [','] + x);
        assert t[n..] == [','] + x && ([','] + x)[1..] == x;
        SingleToken(x);
      } else {
        SpanOf(s[..n], s[n..] + [','] + x);
        assert t[n..] == s[n..] + [','] + x;
        TokensSnoc(s[n..], x);
      }
    }
  }

  lemma SingleToken(x: string)
    requires Plain(x)
    ensures Tokens(x) == [x]
  {
    SpanOf(x, []);
    assert x + [] == x && x[..|x|] == x && x[|x|..] == [];
  }

  /** Splitting a joined list gives the list back. */
  lemma {:induction false} SplitJoin(xs: seq<string>)
    requires AllPlain(xs)
    ensures Tokens(Join(xs)) == xs
    ensures xs != [] ==> Join(xs) != [] && Join(xs)[|Join(xs)| - 1] != ','
    decreases |xs|
  {
    if |xs| == 1 {
      SingleToken(xs[0]);
    } else if |xs| > 1 {
      var n := |xs| - 1;
      SplitJoin(xs[..n]);
      TokensSnoc(Join(xs[..n]), xs[n]);
      assert xs[..n] + [xs[n]] == xs;
    }
  }

  /** A list of two or more is not a single address. */
  lemma JoinedDiffers(xs: seq<string>, x: string)
    requires |xs| >= 2 && Plain(x)
    ensures Join(xs) != x
  {
    var n := |xs| - 1;
    assert Join(xs)[|Join(xs[..n])|] == ',';
  }

  // ---------------------------------------------------------------- the merge as a function

  predicate Same(list: seq<Candidate>, i: nat, j: nat)
    requires i < |list| && j < |list|
  {
    list[i].sctp && list[j].sctp && list[i].dst == list[j].dst
  }

  /** No earlier SCTP candidate has the same destination. */
  ghost predicate Leads(list: seq<Candidate>, k: nat)
    requires k < |list|
  {
    forall j :: 0 <= j < k ==> !Same(list, j, k)
  }

  /** The sources of the SCTP candidates for `dst` among the first `n`, in list order. */
  function Sources(list: seq<Candidate>, dst: string, n: nat): seq<string>
    requires n <= |list|
  {
    if n == 0 then []
    else
      var r := Sources(list, dst, n - 1);
      if list[n - 1].sctp && list[n - 1].dst == dst then r + [list[n - 1].src] else r
  }

  /** What the merge makes of a candidate it keeps. */
  function Merged(list: seq<Candidate>, k: nat): Candidate
    requires k < |list|
  {
    if !list[k].sctp then list[k]
    else
      var xs := Limit(Sources(list, list[k].dst, |list|));
      list[k].(src := Join(xs), nrLocal := |xs|)
  }

  /** The list after the merge: other stacks as they were, and for each destination its first SCTP
      candidate with the sources of all. */
  ghost function Kept(list: seq<Candidate>, n: nat): seq<Candidate>
    requires n <= |list|
  {
    if n == 0 then []
    else
      var r := Kept(list, n - 1);
      if list[n - 1].sctp && !Leads(list, n - 1) then r else r + [Merged(list, n - 1)]
  }

  /** Input of the merge: nothing marked, and SCTP sources are single addresses. */
  ghost predicate Fresh(list: seq<Candidate>) {
    forall k :: 0 <= k < |list| ==> !list[k].removed && (list[k].sctp ==> Plain(list[k].src))
  }

  lemma {:induction false} SourcesPlain(list: seq<Candidate>, dst: string, n: nat)
    requires n <= |list| && Fresh(list)
    ensures AllPlain(Sources(list, dst, n))
  {
    if n > 0 {
      SourcesPlain(list, dst, n - 1);
    }
  }

  lemma {:induction false} SourcesSkip(list: seq<Candidate>, k: nat, n: nat)
    requires n <= k < |list| && list[k].sctp && Leads(list, k)
    ensures Sources(list, list[k].dst, n) == []
  {
    if n > 0 {
      SourcesSkip(list, k, n - 1);
      assert !Same(list, n - 1, k);
    }
  }

  /** The kept candidate's addresses come back when its source list is split: in order, at most
      64, and as many as it announces. */
  lemma MergeRoundTrip(list: seq<Candidate>, k: nat)
    requires Fresh(list) && k < |list| && list[k].sctp
    ensures Tokens(Merged(list, k).src) == Limit(Sources(list, list[k].dst, |list|))
    ensures |Tokens(Merged(list, k).src)| == Merged(list, k).nrLocal
  {
    var all := Sources(list, list[k].dst, |list|);
    SourcesPlain(list, list[k].dst, |list|);
    SplitJoin(Limit(all));
  }

  /** The first SCTP candidate with the destination of `k`. */
  lemma {:induction false} Leader(list: seq<Candidate>, k: nat, n: nat) returns (f: nat)
    requires n <= k < |list| && list[k].sctp
    requires forall j :: 0 <= j < n ==> !Same(list, j, k)
    ensures n <= f <= k && Same(list, f, k) && Leads(list, f)
    decreases k - n
  {
    if n == k || Same(list, n, k) {
      f := n;
      assert forall j :: 0 <= j < n && Same(list, j, n) ==> Same(list, j, k);
    } else {
      f := Leader(list, k, n + 1);
    }
  }

  /** Where a kept candidate comes from. */
  lemma {:induction false} KeptFrom(list: seq<Candidate>, n: nat, p: nat) returns (k: nat)
    requires n <= |list| && p < |Kept(list, n)|
    ensures k < n && Kept(list, n)[p] == Merged(list, k) && (list[k].sctp ==> Leads(list, k))
  {
    if p < |Kept(list, n - 1)| {
      k := KeptFrom(list, n - 1, p);
    } else {
      k := n - 1;
    }
  }

  /** Where a candidate is kept. */
  lemma {:induction false} KeptAt(list: seq<Candidate>, n: nat, k: nat)
    requires k < n <= |list| && (list[k].sctp ==> Leads(list, k))
    ensures |Kept(list, k)| < |Kept(list, n)| && Kept(list, n)[|Kept(list, k)|] == Merged(list, k)
  {
    if k < n - 1 {
      KeptAt(list, n - 1, k);
    }
  }

  ghost predicate OneEach(r: seq<Candidate>) {
    forall p, q :: 0 <= p < q < |r| && r[p].sctp && r[q].sctp ==> r[p].dst != r[q].dst
  }

  /** No two kept SCTP candidates share a destination. */
  lemma {:induction false} OnePerDestination(list: seq<Candidate>, n: nat)
    requires n <= |list|
    ensures OneEach(Kept(list, n))
  {
    if n > 0 {
      OnePerDestination(list, n - 1);
      var before, r := Kept(list, n - 1), Kept(list, n);
      forall p, q | 0 <= p < q < |r| && r[p].sctp && r[q].sctp ensures r[p].dst != r[q].dst {
        assert r[p] == before[p];
        if q < |before| {
          assert r[q] == before[q];
        } else {
          var k := KeptFrom(list, n - 1, p);
          assert r[q] == Merged(list, n - 1);
          assert !Same(list, k, n - 1);
        }
      }
    }
  }

  /** Every SCTP candidate's destination is kept, with the sources of the whole group in order. */
  lemma EveryDestinationKept(list: seq<Candidate>, k: nat)
    requires Fresh(list) && k < |list| && list[k].sctp
    ensures exists p :: 0 <= p < |Kept(list, |list|)| &&
              var c := Kept(list, |list|)[p];
              && c.sctp && c.dst == list[k].dst && !c.removed
              && Tokens(c.src) == Limit(Sources(list, list[k].dst, |list|))
              && c.nrLocal == |Tokens(c.src)|
  {
    var f := Leader(list, k, 0);
    KeptAt(list, |list|, f);
    MergeRoundTrip(list, f);
    assert Kept(list, |list|)[|Kept(list, f)|] == Merged(list, f);
  }

  /** How many SCTP candidates for `dst` there are among the first `n`. */
  function Rank(list: seq<Candidate>, dst: string, n: nat): nat
    requires n <= |list|
  {
    if n == 0 then 0 else Rank(list, dst, n - 1) + if list[n - 1].sctp && list[n - 1].dst == dst then 1 else 0
  }

  lemma {:induction false} SourcesAt(list: seq<Candidate>, dst: string, n: nat, j: nat)
    requires n <= |list|
    ensures |Sources(list, dst, n)| == Rank(list, dst, n)
    ensures j < n && list[j].sctp && list[j].dst == dst ==>
              Rank(list, dst, j) < Rank(list, dst, n) && Sources(list, dst, n)[Rank(list, dst, j)] == list[j].src
  {
    if n > 0 {
      SourcesAt(list, dst, n - 1, j);
      if j == n - 1 {
        SourcesAt(list, dst, n - 1, 0);
      }
    }
  }

  /** After the merge, a destination's candidate has as many sources as there were candidates for it,
      up to 64, and the source of each of them at the place that it had among them. */
  lemma EverySourceKept(list: seq<Candidate>, k: nat, j: nat) returns (p: nat)
    requires Fresh(list) && k < |list| && j < |list| && Same(list, k, j)
    ensures p < |Kept(list, |list|)|
    ensures var c := Kept(list, |list|)[p];
            var all, place := Rank(list, list[k].dst, |list|), Rank(list, list[k].dst, j);
            && c.sctp && c.dst == list[k].dst
            && c.nrLocal == |Tokens(c.src)| == (if all < 64 then all else 64)
            && (place < 64 ==> place < |Tokens(c.src)| && Tokens(c.src)[place] == list[j].src)
  {
    EveryDestinationKept(list, k);
    p :| 0 <= p < |Kept(list, |list|)| &&
         var c := Kept(list, |list|)[p];
         && c.sctp && c.dst == list[k].dst && !c.removed
         && Tokens(c.src) == Limit(Sources(list, list[k].dst, |list|))
         && c.nrLocal == |Tokens(c.src)|;
    SourcesAt(list, list[k].dst, |list|, j);
  }

  function Others(list: seq<Candidate>): seq<Candidate> {
    if list == [] then []
    else
      var r := Others(list[..|list| - 1]);
      var c := list[|list| - 1];
      if c.sctp then r else r + [c]
  }

  /** Candidates of other stacks pass through unchanged and in order. */
  lemma {:induction false} OthersUntouched(list: seq<Candidate>, n: nat)
    requires n <= |list|
    ensures Others(Kept(list, n)) == Others(list[..n])
  {
    if n > 0 {
      OthersUntouched(list, n - 1);
      var r := Kept(list, n - 1);
      assert list[..n][..n - 1] == list[..n - 1];
      if list[n - 1].sctp ==> Leads(list, n - 1) {
        assert (r + [Merged(list, n - 1)])[..|r|] == r;
      }
    }
  }

  /** How many candidates of other stacks there are among the first `n`. */
  function OtherRank(list: seq<Candidate>, n: nat): nat
    requires n <= |list|
  {
    if n == 0 then 0 else OtherRank(list, n - 1) + if list[n - 1].sctp then 0 else 1
  }

  /** Candidate `k` of another stack is where its rank says. */
  lemma {:induction false} OthersAt(list: seq<Candidate>, n: nat, k: nat)
    requires n <= |list|
    ensures |Others(list[..n])| == OtherRank(list, n)
    ensures k < n && !list[k].sctp ==>
              OtherRank(list, k) < OtherRank(list, n) && Others(list[..n])[OtherRank(list, k)] == list[k]
  {
    if n > 0 {
      assert list[..n][..n - 1] == list[..n - 1];
      OthersAt(list, n - 1, k);
      if k == n - 1 {
        OthersAt(list, n - 1, 0);
      }
    }
  }

  /** The strtok_r loop of nt_connect. */
  method SplitAddresses(src: string) returns (tokens: seq<string>)
    ensures tokens == Tokens(src)
  {
    tokens := [];
    var rest := src;
    while rest != []
      invariant tokens + Tokens(rest) == Tokens(src)
      decreases |rest|
    {
      if rest[0] == ',' {
        rest := rest[1..];
      } else {
        var n := 1;
        while n < |rest| && rest[n] != ','
          invariant n <= |rest| && ',' !in rest[..n]
        {
          n := n + 1;
        }
        SpanOf(rest[..n], rest[n..]);
        assert rest[..n] + rest[n..] == rest;
        assert tokens + ([rest[..n]] + Tokens(rest[n..])) == (tokens + [rest[..n]]) + Tokens(rest[n..]);
        tokens := tokens + [rest[..n]];
        rest := rest[n..];
      }
    }
  }

  // ---------------------------------------------------------------- the loops

  /** What the outer loop has done when it reaches `i`: destinations met so far are merged into
      their first candidate and the others marked; later destinations are untouched. */
  ghost predicate Settled(orig: seq<Candidate>, now: seq<Candidate>, i: nat, k: nat)
    requires |orig| == |now| && i <= |orig| && k < |orig|
  {
    if !orig[k].sctp then now[k] == orig[k]
    else
      && now[k].sctp && now[k].dst == orig[k].dst
      && (Leads(orig, k) ==> now[k] == if k < i then Merged(orig, k) else orig[k])
      && (!Leads(orig, k) ==>
            if exists f :: 0 <= f < i && f < k && Same(orig, f, k)
            then now[k].removed && (k >= i ==> now[k].src == orig[k].src)
            else now[k] == orig[k])
  }

  ghost predicate AllSettled(orig: seq<Candidate>, now: seq<Candidate>, i: nat)
    requires |orig| == |now| && i <= |orig|
  {
    forall k :: 0 <= k < |orig| ==> Settled(orig, now, i, k)
  }

  /** The body of the inner loop on values: candidate `i` absorbs the source of candidate `j`, which
      is marked unless their source lists are then the same. */
  function Visit(now: seq<Candidate>, i: nat, j: nat): seq<Candidate>
    requires i < |now| && j < |now|
  {
    if !now[j].sctp || now[j].removed || now[i].dst != now[j].dst then now
    else
      var c := now[i];
      var src := if c.nrLocal == 0 then now[j].src else c.src + [','] + now[j].src;
      var c' := if c.nrLocal < MAX_LOCAL_ADDR then c.(src := src, nrLocal := c.nrLocal + 1) else c;
      var next := now[i := c'];
      next[j := next[j].(removed := next[j].removed || c'.src != next[j].src)]
  }

  method Absorb(a: array<Candidate>, i: nat, j: nat)
    requires i < a.Length && j < a.Length
    modifies a
    ensures a[..] == Visit(old(a[..]), i, j)
  {
    if !a[j].sctp || a[j].removed || a[i].dst != a[j].dst {
      return;
    }
    if a[i].nrLocal < MAX_LOCAL_ADDR {
      if a[i].nrLocal == 0 {
        if a[i].src != a[j].src {
          a[i] := a[i].(src := a[j].src);
        }
      } else {
        a[i] := a[i].(src := a[i].src + [','] + a[j].src);
      }
      a[i] := a[i].(nrLocal := a[i].nrLocal + 1);
    }
    if a[i].src != a[j].src {
      a[j] := a[j].(removed := true);
    }
  }

  /** What the inner loop of a destination's first candidate has made of it after `j` candidates. */
  ghost function Gathered(orig: seq<Candidate>, i: nat, j: nat): Candidate
    requires i < |orig| && j <= |orig|
  {
    var xs := Limit(Sources(orig, orig[i].dst, j));
    orig[i].(src := if j <= i then orig[i].src else Join(xs), nrLocal := |xs|)
  }

  lemma LimitSnoc(xs: seq<string>, x: string)
    ensures Limit(xs + [x]) == if |xs| < MAX_LOCAL_ADDR then Limit(xs) + [x] else Limit(xs)
  {
  }

  /** Up to its own place the first candidate of a destination meets no other. */
  lemma GatherBefore(orig: seq<Candidate>, i: nat, j: nat)
    requires j < i < |orig| && orig[i].sctp && Leads(orig, i)
    ensures !Same(orig, i, j) && Gathered(orig, i, j) == Gathered(orig, i, j + 1)
  {
    assert !Same(orig, j, i);
    SourcesSkip(orig, i, j);
    SourcesSkip(orig, i, j + 1);
  }

  lemma GatherSelf(orig: seq<Candidate>, i: nat)
    requires i < |orig| && orig[i].sctp && Leads(orig, i)
    ensures Gathered(orig, i, i) == orig[i].(nrLocal := 0)
    ensures Gathered(orig, i, i + 1) == orig[i].(nrLocal := 1)
  {
    SourcesSkip(orig, i, i);
  }

  /** Behind its place it takes the next source while there is room, and the other is marked. */
  lemma GatherAfter(orig: seq<Candidate>, i: nat, j: nat)
    requires i < j < |orig| && orig[i].sctp && Leads(orig, i) && Fresh(orig)
    ensures !Same(orig, i, j) ==> Gathered(orig, i, j) == Gathered(orig, i, j + 1)
    ensures Same(orig, i, j) ==>
              var c, c' := Gathered(orig, i, j), Gathered(orig, i, j + 1);
              && c.nrLocal > 0 && c'.src != orig[j].src
              && c' == if c.nrLocal < MAX_LOCAL_ADDR
                       then c.(src := c.src + [','] + orig[j].src, nrLocal := c.nrLocal + 1) else c
  {
    var dst := orig[i].dst;
    var xs := Sources(orig, dst, j);
    if Same(orig, i, j) {
      GatherSelf(orig, i);
      SourcesGrow(orig, dst, i + 1, j);
      LimitSnoc(xs, orig[j].src);
      JoinSnoc(Limit(xs), orig[j].src);
      JoinedDiffers(Limit(xs + [orig[j].src]), orig[j].src);
    }
  }

  lemma {:induction false} SourcesGrow(list: seq<Candidate>, dst: string, m: nat, n: nat)
    requires m <= n <= |list|
    ensures |Sources(list, dst, m)| <= |Sources(list, dst, n)|
  {
    if m < n {
      SourcesGrow(list, dst, m, n - 1);
    }
  }

  /** The candidates it meets unmarked are exactly those of its destination. */
  lemma LeaderMeets(orig: seq<Candidate>, start: seq<Candidate>, i: nat, j: nat)
    requires i < |orig| == |start| && j < |orig| && orig[i].sctp && Leads(orig, i) && Fresh(orig)
    requires AllSettled(orig, start, i)
    ensures start[j].sctp && !start[j].removed && start[j].dst == orig[i].dst <==> Same(orig, i, j)
    ensures Same(orig, i, j) ==> start[j] == orig[j]
  {
    assert Settled(orig, start, i, j);
    if Same(orig, i, j) {
      assert Same(orig, j, i);
      assert forall f :: 0 <= f < i && Same(orig, f, j) ==> Same(orig, f, i);
    }
  }

  /** The inner loop of a destination's first candidate, `j` candidates in. */
  ghost predicate Leading(orig: seq<Candidate>, start: seq<Candidate>, now: seq<Candidate>, i: nat, j: nat)
    requires i < |orig| == |start| == |now| && j <= |orig|
  {
    && now[i] == Gathered(orig, i, j)
    && forall k :: 0 <= k < |orig| && k != i ==>
         now[k] == if i < k < j && Same(orig, i, k) then start[k].(removed := true) else start[k]
  }

  lemma LeadingNext(orig: seq<Candidate>, start: seq<Candidate>, now: seq<Candidate>, i: nat, j: nat)
    requires i < |orig| == |start| == |now| && j < |orig| && orig[i].sctp && Leads(orig, i) && Fresh(orig)
    requires AllSettled(orig, start, i) && Leading(orig, start, now, i, j)
    ensures Leading(orig, start, Visit(now, i, j), i, j + 1)
  {
    LeaderMeets(orig, start, i, j);
    if j < i {
      GatherBefore(orig, i, j);
    } else if j == i {
      GatherSelf(orig, i);
    } else {
      GatherAfter(orig, i, j);
    }
  }

  lemma LeadingDone(orig: seq<Candidate>, start: seq<Candidate>, now: seq<Candidate>, i: nat)
    requires i < |orig| == |start| == |now| && orig[i].sctp && Leads(orig, i)
    requires AllSettled(orig, start, i) && Leading(orig, start, now, i, |orig|)
    ensures AllSettled(orig, now, i + 1)
  {
    var next := i + 1;
    forall k | 0 <= k < |orig| ensures Settled(orig, now, next, k) {
      assert Settled(orig, start, i, k);
    }
  }

  /** The inner loop of a candidate already marked: it copies the merged list and marks nothing. */
  ghost predicate Following(start: seq<Candidate>, now: seq<Candidate>, i: nat, f: nat, j: nat)
    requires i < |start| == |now|
  {
    && now[i] == start[i].(nrLocal := if j <= f then 0 else 1, src := now[i].src)
    && forall k :: 0 <= k < |start| && k != i ==> now[k] == start[k]
  }

  lemma FollowerMeets(orig: seq<Candidate>, start: seq<Candidate>, i: nat, f: nat, j: nat)
    requires f < i < |orig| == |start| && j < |orig| && Same(orig, f, i) && Leads(orig, f) && Fresh(orig)
    requires AllSettled(orig, start, i)
    ensures start[j].sctp && !start[j].removed && start[j].dst == orig[i].dst <==> j == f
    ensures start[i].sctp && start[i].dst == orig[i].dst && start[i].removed
  {
    assert Settled(orig, start, i, i);
    assert Settled(orig, start, i, j);
    assert Settled(orig, start, i, f);
    if j != f && orig[j].sctp && orig[j].dst == orig[i].dst {
      assert Same(orig, f, j) && Same(orig, j, f);
    }
  }

  lemma FollowingNext(orig: seq<Candidate>, start: seq<Candidate>, now: seq<Candidate>, i: nat, f: nat, j: nat)
    requires f < i < |orig| == |start| == |now| && j < |orig| && Same(orig, f, i) && Leads(orig, f) && Fresh(orig)
    requires AllSettled(orig, start, i) && Following(start, now, i, f, j)
    ensures Following(start, Visit(now, i, j), i, f, j + 1)
  {
    FollowerMeets(orig, start, i, f, j);
  }

  lemma FollowingDone(orig: seq<Candidate>, start: seq<Candidate>, now: seq<Candidate>, i: nat, f: nat)
    requires f < i < |orig| == |start| == |now| && Same(orig, f, i) && Leads(orig, f) && Fresh(orig)
    requires AllSettled(orig, start, i) && Following(start, now, i, f, |orig|)
    ensures AllSettled(orig, now, i + 1)
  {
    var next := i + 1;
    FollowerMeets(orig, start, i, f, i);
    forall k | 0 <= k < |orig| ensures Settled(orig, now, next, k) {
      assert Settled(orig, start, i, k);
      if k > i && Same(orig, i, k) {
        assert Same(orig, f, k);
      }
    }
  }

  /** What the inner loop of `i` needs: `f` is the first candidate of its destination. */
  ghost predicate Turn(orig: seq<Candidate>, start: seq<Candidate>, i: nat, f: nat) {
    && f <= i < |orig| == |start| && Fresh(orig) && AllSettled(orig, start, i)
    && Same(orig, f, i) && Leads(orig, f)
  }

  ghost predicate Progress(orig: seq<Candidate>, start: seq<Candidate>, now: seq<Candidate>, i: nat, f: nat, j: nat)
    requires i < |orig| == |start| == |now| && j <= |orig|
  {
    if f == i then Leading(orig, start, now, i, j) else Following(start, now, i, f, j)
  }

  lemma ProgressStart(orig: seq<Candidate>, start: seq<Candidate>, i: nat, f: nat)
    requires Turn(orig, start, i, f)
    ensures Progress(orig, start, start[i := start[i].(nrLocal := 0)], i, f, 0)
  {
    assert Settled(orig, start, i, i);
  }

  lemma ProgressNext(orig: seq<Candidate>, start: seq<Candidate>, now: seq<Candidate>, i: nat, f: nat, j: nat)
    requires Turn(orig, start, i, f) && |now| == |orig| && j < |orig| && Progress(orig, start, now, i, f, j)
    ensures Progress(orig, start, Visit(now, i, j), i, f, j + 1)
  {
    if f == i { LeadingNext(orig, start, now, i, j); } else { FollowingNext(orig, start, now, i, f, j); }
  }

  lemma ProgressDone(orig: seq<Candidate>, start: seq<Candidate>, now: seq<Candidate>, i: nat, f: nat)
    requires Turn(orig, start, i, f) && |now| == |orig| && Progress(orig, start, now, i, f, |orig|)
    ensures AllSettled(orig, now, i + 1)
  {
    if f == i { LeadingDone(orig, start, now, i); } else { FollowingDone(orig, start, now, i, f); }
  }

  /** The inner loop. */
  method Gather(a: array<Candidate>, i: nat, ghost orig: seq<Candidate>)
    requires i < a.Length == |orig| && Fresh(orig) && AllSettled(orig, a[..], i) && orig[i].sctp
    modifies a
    ensures AllSettled(orig, a[..], i + 1)
  {
    ghost var start := a[..];
    ghost var f := Leader(orig, i, 0);
    ProgressStart(orig, start, i, f);
    a[i] := a[i].(nrLocal := 0);
    assert a[..] == start[i := start[i].(nrLocal := 0)];
    var j := 0;
    while j < a.Length
      invariant j <= a.Length
      invariant Progress(orig, start, a[..], i, f, j)
    {
      ProgressNext(orig, start, a[..], i, f, j);
      Absorb(a, i, j);
      j := j + 1;
    }
    ProgressDone(orig, start, a[..], i, f);
  }

  /** combine_candidates: the nested loops, then the removal of the marked candidates. */
  method Combine(a: array<Candidate>) returns (list: seq<Candidate>)
    requires Fresh(a[..])
    modifies a
    ensures list == Kept(old(a[..]), a.Length)
  {
    ghost var orig := a[..];
    assert forall k :: 0 <= k < |orig| ==> Settled(orig, orig, 0, k);
    var i := 0;
    while i < a.Length
      invariant i <= a.Length
      invariant AllSettled(orig, a[..], i)
    {
      assert Settled(orig, a[..], i, i);
      if a[i].sctp {
        Gather(a, i, orig);
      } else {
        SkipOther(orig, a[..], i);
      }
      i := i + 1;
    }
    list := [];
    i := 0;
    while i < a.Length
      invariant i <= a.Length
      invariant list == Kept(orig, i)
    {
      assert Settled(orig, a[..], a.Length, i);
      if !a[i].removed {
        list := list + [a[i]];
      }
      i := i + 1;
    }
  }

  lemma SkipOther(orig: seq<Candidate>, now: seq<Candidate>, i: nat)
    requires i < |orig| == |now| && AllSettled(orig, now, i) && !orig[i].sctp
    ensures AllSettled(orig, now, i + 1)
  {
    var next := i + 1;
    forall k | 0 <= k < |orig| ensures Settled(orig, now, next, k) {
      assert Settled(orig, now, i, k);
    }
  }
}
