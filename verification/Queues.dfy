/**
 The intrusive lists and tail queues: links rewritten in place refine operations on sequences.
 A head and an entry have the same layout, a pointer to the next element and the address of a
 next field; the address of a next field is modelled by the link that holds the field.
 */
module Queues {
  /** `owner` is the element that contains the link. */
  class Link<T> {
    var next: Link?<T>
    var prev: Link?<T>
    const owner: T

    constructor (owner: T)
      ensures next == null && prev == null && this.owner == owner
    {
      next, prev, this.owner := null, null, owner;
    }
  }

  // ---------------------------------------------------------------- well-formed links

  ghost predicate Distinct<T>(c: seq<Link<T>>) { forall i, j :: 0 <= i < j < |c| ==> c[i] != c[j] }

  /** `c` is the head followed by the elements. */
  ghost predicate Chain<T>(c: seq<Link<T>>)
    reads c
  {
    && |c| > 0 && Distinct(c)
    && (forall i, j :: 0 <= i < |c| && 0 <= j < |c| && j == i + 1 ==> c[i].next == c[j] && c[j].prev == c[i])
    && c[|c| - 1].next == null
  }

  /** A list of `q`. */
  ghost predicate List<T>(head: Link<T>, q: seq<Link<T>>)
    reads head, q
  {
    Chain([head] + q)
  }

  /** A tail queue also knows where its last next field is. */
  ghost predicate TailQueue<T>(head: Link<T>, q: seq<Link<T>>)
    reads head, q
  {
    Chain([head] + q) && head.prev == (if q == [] then head else q[|q| - 1])
  }

  /** `q` with `x` put in front of position `k`. */
  ghost function Inserted<T>(q: seq<Link<T>>, k: nat, x: Link<T>): seq<Link<T>>
    requires k <= |q|
  {
    q[..k] + [x] + q[k..]
  }

  ghost function Removed<T>(q: seq<Link<T>>, k: nat): seq<Link<T>>
    requires k < |q|
  {
    q[..k] + q[k + 1..]
  }

  // ---------------------------------------------------------------- splicing

  /** The heart of every insertion: `x` goes between two neighbours, or behind the last one. */
  method Splice<T>(ghost c: seq<Link<T>>, ghost k: nat, before: Link<T>, x: Link<T>)
    requires Chain(c) && 0 < k <= |c| && before == c[k - 1] && x !in c
    modifies before, before.next, x
    ensures Chain(Inserted(c, k, x))
    ensures c[0].prev == old(c[0].prev)
    ensures k == |c| ==> x.next == null
  {
    ghost var d := Inserted(c, k, x);
    assert before.next == if k < |c| then c[k] else null;
    x.next := before.next;
    if x.next != null {
      x.next.prev := x;
    }
    before.next := x;
    x.prev := before;
    assert forall i :: 0 <= i < k ==> d[i] == c[i];
    assert forall i :: k < i < |d| ==> d[i] == c[i - 1];
    assert forall i :: 0 <= i < |c| && i != k && i != k - 1 ==>
      c[i].next == old(c[i].next) && c[i].prev == old(c[i].prev);
  }

  /** Insertion in front of an element needs no head: the link before is found through `prev`. */
  method SpliceBefore<T>(ghost c: seq<Link<T>>, ghost k: nat, at: Link<T>, x: Link<T>)
    requires Chain(c) && 0 < k < |c| && at == c[k] && x !in c
    modifies at.prev, at, x
    ensures Chain(Inserted(c, k, x))
    ensures c[0].prev == old(c[0].prev)
  {
    ghost var d := Inserted(c, k, x);
    assert at.prev == c[k - 1];
    x.prev := at.prev;
    x.next := at;
    at.prev.next := x;
    at.prev := x;
    assert forall i :: 0 <= i < k ==> d[i] == c[i];
    assert forall i :: k < i < |d| ==> d[i] == c[i - 1];
    assert forall i :: 0 <= i < |c| && i != k - 1 ==> c[i].next == old(c[i].next);
    assert forall i :: 0 <= i < |c| && i != k ==> c[i].prev == old(c[i].prev);
  }

  /** The heart of every removal. */
  method Unlink<T>(ghost c: seq<Link<T>>, ghost k: nat, x: Link<T>)
    requires Chain(c) && 0 < k < |c| && x == c[k]
    modifies x.prev, x.next
    ensures Chain(Removed(c, k))
    ensures c[0].prev == old(c[0].prev)
    ensures x.prev == old(x.prev) && x.next == old(x.next)
  {
    ghost var d := Removed(c, k);
    assert x.prev == c[k - 1] && x.next == if k < |c| - 1 then c[k + 1] else null;
    if x.next != null {
      x.next.prev := x.prev;
    }
    x.prev.next := x.next;
    assert forall i :: 0 <= i < k ==> d[i] == c[i];
    assert forall i :: k <= i < |d| ==> d[i] == c[i + 1];
    assert forall i :: 0 <= i < |c| && i != k - 1 && i != k + 1 ==>
      c[i].next == old(c[i].next) && c[i].prev == old(c[i].prev);
  }

  // ---------------------------------------------------------------- lists

  method ListInit<T>(head: Link<T>)
    modifies head
    ensures List(head, [])
  {
    head.next := null;
  }

  method ListInsertHead<T>(head: Link<T>, x: Link<T>, ghost q: seq<Link<T>>)
    requires List(head, q) && x != head && x !in q
    modifies head, head.next, x
    ensures List(head, [x] + q)
  {
    Splice([head] + q, 1, head, x);
    assert Inserted([head] + q, 1, x) == [head] + ([x] + q);
  }

  method ListInsertBefore<T>(ghost head: Link<T>, at: Link<T>, x: Link<T>, ghost q: seq<Link<T>>, ghost k: nat)
    requires List(head, q) && k < |q| && at == q[k] && x != head && x !in q
    modifies at.prev, at, x
    ensures List(head, Inserted(q, k, x))
  {
    ghost var c := [head] + q;
    assert c[k + 1] == at;
    SpliceBefore(c, k + 1, at, x);
    assert Inserted(c, k + 1, x) == [head] + Inserted(q, k, x);
  }

  method ListRemove<T>(ghost head: Link<T>, x: Link<T>, ghost q: seq<Link<T>>, ghost k: nat)
    requires List(head, q) && k < |q| && x == q[k]
    modifies x.prev, x.next
    ensures List(head, Removed(q, k))
  {
    assert ([head] + q)[k + 1] == x;
    Unlink([head] + q, k + 1, x);
    assert Removed([head] + q, k + 1) == [head] + Removed(q, k);
  }

  /** The state of an iteration: what was kept so far, what is still to visit, all within `all`. */
  ghost predicate Iterating<T>(head: Link<T>, all: set<Link<T>>, kept: seq<Link<T>>, rest: seq<Link<T>>)
    reads all
  {
    && head in all && (forall i :: 0 <= i < |kept + rest| ==> (kept + rest)[i] in all)
    && List(head, kept + rest)
  }

  /** The element that is removed, and the one behind it. */
  lemma Neighbours<T>(kept: seq<Link<T>>, rest: seq<Link<T>>)
    requires rest != []
    ensures var now, m := kept + rest, |kept|;
            && now[m] == rest[0] && (|rest| > 1 ==> now[m + 1] == rest[1])
            && Removed(now, m) == kept + rest[1..] && now == (kept + [rest[0]]) + rest[1..]
  {
  }

  lemma FewerWithin<T>(all: set<Link<T>>, kept: seq<Link<T>>, rest: seq<Link<T>>)
    requires rest != [] && forall i :: 0 <= i < |kept + rest| ==> (kept + rest)[i] in all
    ensures forall i :: 0 <= i < |kept + rest[1..]| ==> (kept + rest[1..])[i] in all
  {
    var now, fewer := kept + rest, kept + rest[1..];
    assert forall i :: 0 <= i < |fewer| ==> fewer[i] == now[if i < |kept| then i else i + 1];
  }

  /** The body removes the element it visits. */
  method ListDrop<T>(head: Link<T>, x: Link<T>,
                     ghost all: set<Link<T>>, ghost kept: seq<Link<T>>, ghost rest: seq<Link<T>>)
    requires rest != [] && x == rest[0] && Iterating(head, all, kept, rest)
    modifies all
    ensures Iterating(head, all, kept, rest[1..])
  {
    ghost var now, m := kept + rest, |kept|;
    Neighbours(kept, rest);
    FewerWithin(all, kept, rest);
    NextIs(head, now, m);
    PrevIs(head, now, m);
    ListRemove(head, x, now, m);
  }

  /** One round of LIST_FOREACH_SAFE: the next element is remembered before the body runs. */
  method ListVisit<T>(head: Link<T>, x: Link<T>, doomed: set<Link<T>>,
                      ghost all: set<Link<T>>, ghost kept: seq<Link<T>>, ghost rest: seq<Link<T>>)
    returns (next: Link?<T>, ghost kept': seq<Link<T>>, ghost rest': seq<Link<T>>)
    requires rest != [] && x == rest[0] && Iterating(head, all, kept, rest)
    modifies all
    ensures kept' == (if x in doomed then kept else kept + [x]) && rest' == rest[1..]
    ensures Iterating(head, all, kept', rest')
    ensures next == if rest' == [] then null else rest'[0]
  {
    kept', rest' := if x in doomed then kept else kept + [x], rest[1..];
    Neighbours(kept, rest);
    NextIs(head, kept + rest, |kept|);
    next := x.next;
    if x in doomed {
      ListDrop(head, x, all, kept, rest);
    }
  }

  /** LIST_FOREACH_SAFE: every element is visited once, in order, whichever of the visited ones the
      body removes. */
  method ListForeachSafe<T>(head: Link<T>, doomed: set<Link<T>>, ghost q: seq<Link<T>>) returns (visited: seq<Link<T>>)
    requires List(head, q)
    modifies head, q
    ensures visited == q
    ensures List(head, Without(q, doomed, []))
  {
    visited := [];
    ghost var all := {head} + (set x | x in q);
    ghost var kept: seq<Link<T>>, rest: seq<Link<T>> := [], q;
    FirstIs(head, q);
    assert kept + rest == q;
    var x: Link?<T> := head.next;
    while x != null
      invariant Progress(q, doomed, visited, kept, rest)
      invariant Iterating(head, all, kept, rest)
      invariant x == if rest == [] then null else rest[0]
      decreases |rest|
    {
      ProgressStep(q, doomed, visited, kept, rest);
      visited := visited + [x];
      x, kept, rest := ListVisit(head, x, doomed, all, kept, rest);
    }
    assert kept + rest == kept;
  }

  /** `kept` and behind it the elements of `q` that are not removed, in order. */
  ghost function Without<T>(q: seq<Link<T>>, doomed: set<Link<T>>, kept: seq<Link<T>>): seq<Link<T>>
    decreases |q|
  {
    if q == [] then kept else Without(q[1..], doomed, if q[0] in doomed then kept else kept + [q[0]])
  }

  ghost predicate Progress<T>(q: seq<Link<T>>, doomed: set<Link<T>>,
                              visited: seq<Link<T>>, kept: seq<Link<T>>, rest: seq<Link<T>>) {
    q == visited + rest && Without(q, doomed, []) == Without(rest, doomed, kept)
  }

  lemma ProgressStep<T>(q: seq<Link<T>>, doomed: set<Link<T>>,
                        visited: seq<Link<T>>, kept: seq<Link<T>>, rest: seq<Link<T>>)
    requires Progress(q, doomed, visited, kept, rest) && rest != []
    ensures Progress(q, doomed, visited + [rest[0]], if rest[0] in doomed then kept else kept + [rest[0]], rest[1..])
  {
  }

  /** Nothing but the removed elements is missing, and nothing is added. */
  lemma {:induction false} WithoutIs<T>(q: seq<Link<T>>, doomed: set<Link<T>>, kept: seq<Link<T>>)
    ensures kept <= Without(q, doomed, kept)
    ensures forall i :: |kept| <= i < |Without(q, doomed, kept)| ==>
              Without(q, doomed, kept)[i] in q && Without(q, doomed, kept)[i] !in doomed
    ensures forall i :: 0 <= i < |q| && q[i] !in doomed ==> q[i] in Without(q, doomed, kept)
    decreases |q|
  {
    if q != [] {
      var next := if q[0] in doomed then kept else kept + [q[0]];
      WithoutIs(q[1..], doomed, next);
      var r := Without(q[1..], doomed, next);
      assert q[0] !in doomed ==> r[|kept|] == q[0];
    }
  }

  lemma FirstIs<T>(head: Link<T>, q: seq<Link<T>>)
    requires List(head, q)
    ensures head.next == if q == [] then null else q[0]
  {
    var c := [head] + q;
    assert c[0] == head && (q != [] ==> c[1] == q[0]);
  }

  lemma NextIs<T>(head: Link<T>, q: seq<Link<T>>, k: nat)
    requires List(head, q) && k < |q|
    ensures q[k].next == if k + 1 < |q| then q[k + 1] else null
  {
    var c := [head] + q;
    assert c[k + 1] == q[k] && (k + 1 < |q| ==> c[k + 2] == q[k + 1]);
  }

  lemma PrevIs<T>(head: Link<T>, q: seq<Link<T>>, k: nat)
    requires List(head, q) && k < |q|
    ensures q[k].prev == if k > 0 then q[k - 1] else head
  {
    var c := [head] + q;
    assert c[0] == head && c[k + 1] == q[k] && (k > 0 ==> c[k] == q[k - 1]);
  }

  // ---------------------------------------------------------------- tail queues

  method TailInit<T>(head: Link<T>)
    modifies head
    ensures TailQueue(head, [])
  {
    head.next := null;
    head.prev := head;
  }

  method TailInsertHead<T>(head: Link<T>, x: Link<T>, ghost q: seq<Link<T>>)
    requires TailQueue(head, q) && x != head && x !in q
    modifies head, head.next, x
    ensures TailQueue(head, [x] + q)
  {
    ghost var empty := q == [];
    assert !empty ==> ([head] + q)[1] == q[0];
    Splice([head] + q, 1, head, x);
    assert Inserted([head] + q, 1, x) == [head] + ([x] + q);
    NextIs(head, [x] + q, 0);
    if x.next == null {
      head.prev := x;
    }
    assert Chain([head] + ([x] + q));
  }

  method TailInsertTail<T>(head: Link<T>, x: Link<T>, ghost q: seq<Link<T>>)
    requires TailQueue(head, q) && x != head && x !in q
    modifies head, head.prev, x
    ensures TailQueue(head, q + [x])
  {
    ghost var c, d := [head] + q, [head] + (q + [x]);
    assert c[0] == head && c[|c| - 1] == if q == [] then head else q[|q| - 1];
    assert head.prev == c[|c| - 1];
    x.next := null;
    x.prev := head.prev;
    head.prev.next := x;
    head.prev := x;
    assert forall i :: 0 <= i < |c| ==> d[i] == c[i];
    assert d[|c|] == x;
    assert forall i :: 1 <= i < |c| ==> c[i].prev == old(c[i].prev);
    assert forall i :: 0 <= i < |c| - 1 ==> c[i].next == old(c[i].next);
  }

  method TailInsertAfter<T>(head: Link<T>, at: Link<T>, x: Link<T>, ghost q: seq<Link<T>>, ghost k: nat)
    requires TailQueue(head, q) && k < |q| && at == q[k] && x != head && x !in q
    modifies head, at, at.next, x
    ensures TailQueue(head, Inserted(q, k + 1, x))
  {
    ghost var c := [head] + q;
    assert c[k + 1] == at;
    Splice(c, k + 2, at, x);
    ghost var r := Inserted(q, k + 1, x);
    assert Inserted(c, k + 2, x) == [head] + r;
    assert r[k + 1] == x;
    NextIs(head, r, k + 1);
    if x.next == null {
      head.prev := x;
    }
  }

  method TailInsertBefore<T>(ghost head: Link<T>, at: Link<T>, x: Link<T>, ghost q: seq<Link<T>>, ghost k: nat)
    requires TailQueue(head, q) && k < |q| && at == q[k] && x != head && x !in q
    modifies at.prev, at, x
    ensures TailQueue(head, Inserted(q, k, x))
  {
    ghost var c := [head] + q;
    assert c[0] == head && c[k + 1] == at;
    SpliceBefore(c, k + 1, at, x);
    ghost var r := Inserted(q, k, x);
    assert Inserted(c, k + 1, x) == [head] + r;
    assert r[|r| - 1] == q[|q| - 1];
  }

  method TailRemove<T>(head: Link<T>, x: Link<T>, ghost q: seq<Link<T>>, ghost k: nat)
    requires TailQueue(head, q) && k < |q| && x == q[k]
    modifies head, x.prev, x.next
    ensures TailQueue(head, Removed(q, k))
  {
    ghost var c := [head] + q;
    assert c[k + 1] == x;
    NextIs(head, q, k);
    PrevIs(head, q, k);
    Unlink(c, k + 1, x);
    ghost var r := Removed(q, k);
    assert Removed(c, k + 1) == [head] + r;
    if x.next == null {
      head.prev := x.prev;
    }
  }

  lemma LastLinks<T>(head: Link<T>, q: seq<Link<T>>)
    requires TailQueue(head, q)
    ensures head.prev != null && head.prev.prev != null
    ensures head.prev.prev.next == if q == [] then null else q[|q| - 1]
  {
    if q != [] {
      PrevIs(head, q, |q| - 1);
      if |q| > 1 { NextIs(head, q, |q| - 2); }
      FirstIs(head, q);
    }
  }

  /** TAILQ_LAST: the link that holds the last next field is read as if it were a head. */
  method TailLast<T>(head: Link<T>, ghost q: seq<Link<T>>) returns (last: Link?<T>)
    requires TailQueue(head, q)
    ensures last == if q == [] then null else q[|q| - 1]
  {
    LastLinks(head, q);
    last := head.prev.prev.next;
  }

  /** TAILQ_PREV: the same trick on an element. */
  method TailPrev<T>(head: Link<T>, x: Link<T>, ghost q: seq<Link<T>>, ghost k: nat) returns (prev: Link?<T>)
    requires TailQueue(head, q) && k < |q| && x == q[k]
    ensures prev == if k == 0 then null else q[k - 1]
  {
    PrevIs(head, q, k);
    if k > 0 {
      PrevIs(head, q, k - 1);
      if k > 1 { NextIs(head, q, k - 2); } else { FirstIs(head, q); }
    } else {
      assert head.prev == q[|q| - 1];
      NextIs(head, q, |q| - 1);
    }
    prev := x.prev.prev.next;
  }

  ghost predicate IteratingTail<T>(head: Link<T>, all: set<Link<T>>, kept: seq<Link<T>>, rest: seq<Link<T>>)
    reads all
  {
    && head in all && (forall i :: 0 <= i < |kept + rest| ==> (kept + rest)[i] in all)
    && TailQueue(head, kept + rest)
  }

  method TailDrop<T>(head: Link<T>, x: Link<T>,
                     ghost all: set<Link<T>>, ghost kept: seq<Link<T>>, ghost rest: seq<Link<T>>)
    requires rest != [] && x == rest[0] && IteratingTail(head, all, kept, rest)
    modifies all
    ensures IteratingTail(head, all, kept, rest[1..])
  {
    ghost var now, m := kept + rest, |kept|;
    Neighbours(kept, rest);
    FewerWithin(all, kept, rest);
    NextIs(head, now, m);
    PrevIs(head, now, m);
    TailRemove(head, x, now, m);
  }

  method TailVisit<T>(head: Link<T>, x: Link<T>, doomed: set<Link<T>>,
                      ghost all: set<Link<T>>, ghost kept: seq<Link<T>>, ghost rest: seq<Link<T>>)
    returns (next: Link?<T>, ghost kept': seq<Link<T>>, ghost rest': seq<Link<T>>)
    requires rest != [] && x == rest[0] && IteratingTail(head, all, kept, rest)
    modifies all
    ensures kept' == (if x in doomed then kept else kept + [x]) && rest' == rest[1..]
    ensures IteratingTail(head, all, kept', rest')
    ensures next == if rest' == [] then null else rest'[0]
  {
    kept', rest' := if x in doomed then kept else kept + [x], rest[1..];
    Neighbours(kept, rest);
    NextIs(head, kept + rest, |kept|);
    next := x.next;
    if x in doomed {
      TailDrop(head, x, all, kept, rest);
    }
  }

  /** TAILQ_FOREACH_SAFE: every element is visited once, in order, whichever of the visited ones the
      body removes. */
  method TailForeachSafe<T>(head: Link<T>, doomed: set<Link<T>>, ghost q: seq<Link<T>>) returns (visited: seq<Link<T>>)
    requires TailQueue(head, q)
    modifies head, q
    ensures visited == q
    ensures TailQueue(head, Without(q, doomed, []))
  {
    visited := [];
    ghost var all := {head} + (set x | x in q);
    ghost var kept: seq<Link<T>>, rest: seq<Link<T>> := [], q;
    FirstIs(head, q);
    TailStarts(head, all, q);
    var x: Link?<T> := head.next;
    while x != null
      invariant Progress(q, doomed, visited, kept, rest)
      invariant IteratingTail(head, all, kept, rest)
      invariant x == if rest == [] then null else rest[0]
      decreases |rest|
    {
      ProgressStep(q, doomed, visited, kept, rest);
      visited := visited + [x];
      x, kept, rest := TailVisit(head, x, doomed, all, kept, rest);
    }
    TailEnds(head, all, kept, rest);
  }

  lemma TailStarts<T>(head: Link<T>, all: set<Link<T>>, q: seq<Link<T>>)
    requires TailQueue(head, q) && head in all && forall i :: 0 <= i < |q| ==> q[i] in all
    ensures IteratingTail(head, all, [], q)
  {
    assert [] + q == q;
  }

  lemma TailEnds<T>(head: Link<T>, all: set<Link<T>>, kept: seq<Link<T>>, rest: seq<Link<T>>)
    requires IteratingTail(head, all, kept, rest) && rest == []
    ensures TailQueue(head, kept)
  {
    assert kept + rest == kept;
  }
}
