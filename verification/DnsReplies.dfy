/**
 DNS replies: every (source, server) pair of a request has three address slots, filled from its
 replies with addresses that no pair of the same source has yet.
 */
module DnsReplies {
  import opened Types

  const MAX_NUM_RESOLVED := 3

  /** `owner` is the request a pair points to and `serial` its number there, `src` the source address
      object it points to. `listening` says whether its socket is still being received on. */
  datatype Pair = Pair(owner: nat, serial: nat, src: nat, listening: bool, slots: seq<Option<nat>>)

  /** A new pair listens and has empty slots. */
  function NewPair(owner: nat, serial: nat, src: nat): Pair { Pair(owner, serial, src, true, [None, None, None]) }

  /** Slots are filled from the front. */
  ghost predicate Prefix(slots: seq<Option<nat>>) {
    && |slots| == MAX_NUM_RESOLVED
    && forall i, j :: 0 <= i < j < |slots| && slots[j].Some? ==> slots[i].Some?
  }

  /** No address is stored twice by the pairs of one source. */
  ghost predicate Apart(p: Pair, i: nat, q: Pair, j: nat)
    requires i < |p.slots| && j < |q.slots|
  {
    p.src == q.src && p.slots[i].Some? && q.slots[j].Some? ==> p.slots[i] != q.slots[j]
  }

  ghost predicate PairsOk(pairs: seq<Pair>) {
    && (forall p :: 0 <= p < |pairs| ==> Prefix(pairs[p].slots))
    && (forall p, q, i, j :: 0 <= p < |pairs| && 0 <= q < |pairs|
          && 0 <= i < |pairs[p].slots| && 0 <= j < |pairs[q].slots| && (p != q || i != j)
          ==> Apart(pairs[p], i, pairs[q], j))
  }

  ghost predicate Seen(pairs: seq<Pair>, src: nat, addr: nat) {
    exists p, i :: 0 <= p < |pairs| && 0 <= i < |pairs[p].slots|
      && pairs[p].src == src && pairs[p].slots[i] == Some(addr)
  }

  /** neat_resolver_helpers_check_duplicate: looks at the filled slots of all pairs of the source. */
  method CheckDuplicate(pairs: seq<Pair>, src: nat, addr: nat) returns (seen: bool)
    requires forall p :: 0 <= p < |pairs| ==> Prefix(pairs[p].slots)
    ensures seen <==> Seen(pairs, src, addr)
  {
    var p := 0;
    while p < |pairs|
      invariant p <= |pairs|
      invariant forall q, i :: 0 <= q < p && 0 <= i < |pairs[q].slots| && pairs[q].src == src ==>
                  pairs[q].slots[i] != Some(addr)
    {
      if pairs[p].src == src {
        var i := 0;
        while i < MAX_NUM_RESOLVED && pairs[p].slots[i].Some?
          invariant i <= MAX_NUM_RESOLVED
          invariant forall j :: 0 <= j < i ==> pairs[p].slots[j] != Some(addr)
        {
          if pairs[p].slots[i] == Some(addr) {
            return true;
          }
          i := i + 1;
        }
        assert forall j :: i <= j < MAX_NUM_RESOLVED ==> pairs[p].slots[j].None?;
      }
      p := p + 1;
    }
    return false;
  }

  /** Storing an unseen address behind the ones already stored from this reply. */
  lemma StoreKeeps(pairs: seq<Pair>, p: nat, n: nat, addr: nat)
    requires PairsOk(pairs) && p < |pairs| && n < MAX_NUM_RESOLVED && !Seen(pairs, pairs[p].src, addr)
    requires forall i :: 0 <= i < n ==> pairs[p].slots[i].Some?
    ensures PairsOk(Store(pairs, p, n, addr))
  {
    var pair' := pairs[p].(slots := pairs[p].slots[n := Some(addr)]);
    var next := pairs[p := pair'];
    forall q, r, i, j | 0 <= q < |next| && 0 <= r < |next| && 0 <= i < |next[q].slots| && 0 <= j < |next[r].slots|
        && (q != r || i != j)
      ensures Apart(next[q], i, next[r], j)
    {
      assert Apart(pairs[q], i, pairs[r], j);
      assert (q, i) != (p, n) ==> next[q].slots[i] == pairs[q].slots[i];
      assert (r, j) != (p, n) ==> next[r].slots[j] == pairs[r].slots[j];
    }
  }

  function Store(pairs: seq<Pair>, p: nat, n: nat, addr: nat): seq<Pair>
    requires p < |pairs| && n < |pairs[p].slots|
  {
    pairs[p := pairs[p].(slots := pairs[p].slots[n := Some(addr)])]
  }

  /** The records of one reply, each an address or text that does not parse: unseen addresses are
      stored from slot `n` on, at most three in all. */
  ghost function TakeRecords(pairs: seq<Pair>, p: nat, n: nat, records: seq<Option<nat>>): (seq<Pair>, nat)
    requires p < |pairs| && |pairs[p].slots| == MAX_NUM_RESOLVED
    decreases |records|
  {
    if records == [] || n >= MAX_NUM_RESOLVED then (pairs, n)
    else if records[0].None? || Seen(pairs, pairs[p].src, records[0].value) then TakeRecords(pairs, p, n, records[1..])
    else TakeRecords(Store(pairs, p, n, records[0].value), p, n + 1, records[1..])
  }

  /** A reply keeps the slots in order, leaves the other pairs alone and every pair its source. */
  lemma {:induction false} TakeRecordsKeeps(pairs: seq<Pair>, p: nat, n: nat, records: seq<Option<nat>>)
    requires PairsOk(pairs) && p < |pairs| && n <= MAX_NUM_RESOLVED
    requires forall i :: 0 <= i < n ==> pairs[p].slots[i].Some?
    ensures var next := TakeRecords(pairs, p, n, records).0;
            && PairsOk(next) && |next| == |pairs|
            && (forall q :: 0 <= q < |pairs| ==>
                  next[q] == pairs[q].(slots := next[q].slots) && (q != p ==> next[q] == pairs[q]))
    decreases |records|
  {
    if records != [] && n < MAX_NUM_RESOLVED {
      if records[0].None? || Seen(pairs, pairs[p].src, records[0].value) {
        TakeRecordsKeeps(pairs, p, n, records[1..]);
      } else {
        StoreKeeps(pairs, p, n, records[0].value);
        TakeRecordsKeeps(Store(pairs, p, n, records[0].value), p, n + 1, records[1..]);
      }
    }
  }

  /** The slots written by the reply being processed. */
  ghost predicate Stored(pair: Pair, n: nat, addr: nat)
    requires n <= |pair.slots|
  {
    exists i :: 0 <= i < n && pair.slots[i] == Some(addr)
  }

  /** `next` differs from `pairs` only in the first `n` slots of pair `p`. */
  ghost predicate Progress(pairs: seq<Pair>, next: seq<Pair>, p: nat, n: nat)
  {
    && p < |pairs| == |next| && n <= MAX_NUM_RESOLVED
    && PairsOk(pairs) && PairsOk(next)
    && next[p] == pairs[p].(slots := next[p].slots)
    && (forall q :: 0 <= q < |pairs| && q != p ==> next[q] == pairs[q])
    && (forall i :: 0 <= i < n ==> next[p].slots[i].Some?)
    && (forall i :: n <= i < MAX_NUM_RESOLVED ==> next[p].slots[i] == pairs[p].slots[i])
  }

  /** A record is skipped only if its address was there before or came from this reply. */
  lemma SeenWhere(pairs: seq<Pair>, next: seq<Pair>, p: nat, n: nat, addr: nat)
    requires Progress(pairs, next, p, n) && Seen(next, pairs[p].src, addr)
    ensures Seen(pairs, pairs[p].src, addr) || Stored(next[p], n, addr)
  {
    var q, i :| 0 <= q < |next| && 0 <= i < |next[q].slots|
                 && next[q].src == pairs[p].src && next[q].slots[i] == Some(addr);
    if q == p && i < n {
      assert next[p].slots[i] == Some(addr);
    } else {
      assert pairs[q].slots[i] == Some(addr);
    }
  }

  ghost predicate Handled(pairs: seq<Pair>, next: seq<Pair>, p: nat, n: nat, record: Option<nat>)
    requires Progress(pairs, next, p, n)
  {
    record.Some? ==> Seen(pairs, pairs[p].src, record.value) || Stored(next[p], n, record.value)
  }

  /** The loop of neat_resolver_dns_recv_cb over the records of one reply, each an address or text
      that does not parse: unseen addresses are stored from the first slot on, at most three. */
  method TakeReply(pairs: seq<Pair>, p: nat, records: seq<Option<nat>>) returns (next: seq<Pair>, stored: nat)
    requires PairsOk(pairs) && p < |pairs|
    ensures next == TakeRecords(pairs, p, 0, records).0 && stored == TakeRecords(pairs, p, 0, records).1
    ensures Progress(pairs, next, p, stored)
    ensures forall i :: 0 <= i < stored ==> next[p].slots[i] in records
    ensures stored < MAX_NUM_RESOLVED ==>
              forall k :: 0 <= k < |records| ==> Handled(pairs, next, p, stored, records[k])
  {
    next, stored := pairs, 0;
    var k := 0;
    while k < |records| && stored < MAX_NUM_RESOLVED
      invariant k <= |records|
      invariant Progress(pairs, next, p, stored)
      invariant TakeRecords(next, p, stored, records[k..]) == TakeRecords(pairs, p, 0, records)
      invariant forall i :: 0 <= i < stored ==> next[p].slots[i] in records
      invariant forall j :: 0 <= j < k ==> Handled(pairs, next, p, stored, records[j])
    {
      assert records[k..][1..] == records[k + 1..];
      if records[k].Some? {
        var addr := records[k].value;
        var seen := CheckDuplicate(next, next[p].src, addr);
        if seen {
          SeenWhere(pairs, next, p, stored, addr);
        } else {
          StoreKeeps(next, p, stored, addr);
          ghost var before := next;
          next := next[p := next[p].(slots := next[p].slots[stored := Some(addr)])];
          StoredMore(before[p], next[p], stored, addr);
          stored := stored + 1;
        }
      }
      k := k + 1;
    }
  }

  lemma StoredMore(before: Pair, after: Pair, n: nat, addr: nat)
    requires n < |before.slots| && after == before.(slots := before.slots[n := Some(addr)])
    ensures Stored(after, n + 1, addr)
    ensures forall a: nat :: Stored(before, n, a) ==> Stored(after, n + 1, a)
  {
    assert after.slots[n] == Some(addr);
    forall a: nat | Stored(before, n, a) ensures Stored(after, n + 1, a) {
      var i :| 0 <= i < n && before.slots[i] == Some(a);
      assert after.slots[i] == Some(a);
    }
  }
}
