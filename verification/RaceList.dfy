/**
 The race in place: candidate objects with a timer and a poll handle on the tail queue of their
 flow, an 8-bit counter, and handlers that close, hand over and unlink.
 */
module RaceList {
  import opened Types
  import opened HappyEyeballs
  import Q = Queues

  /** A poll handle: not there, allocated, polled, handed over to the flow, or closed. */
  datatype Handle = Gone | Allocated | Polling | Handed | Closed

  class Candidate {
    const index: nat
    var timer: bool
    var handle: Handle

    constructor (index: nat)
      ensures this.index == index
    {
      this.index, timer, handle := index, false, Gone;
    }

    ghost function Status(): Status
      reads this
    {
      StatusOf(timer, handle)
    }
  }

  /** What the timer and the handle make of a candidate. */
  ghost function StatusOf(timer: bool, handle: Handle): Status {
    if timer then Waiting
    else match handle
      case Polling => Connecting
      case Handed => Winner
      case Closed => Broken
      case _ => Dropped
  }

  type Entry = Q.Link<Candidate?>

  ghost predicate Linked(head: Entry, links: seq<Entry>, owners: seq<Candidate>)
    reads head, links
  {
    && Q.TailQueue(head, links)
    && |owners| == |links|
    && (forall i :: 0 <= i < |links| ==> links[i].owner == owners[i])
  }

  ghost function Without(owners: seq<Candidate>, k: nat): seq<Candidate>
    requires k < |owners|
  {
    owners[..k] + owners[k + 1..]
  }

  /** TAILQ_REMOVE of the candidate at place `k`. */
  method UnlinkCandidate(head: Entry, x: Entry, ghost links: seq<Entry>, ghost owners: seq<Candidate>, ghost k: nat)
    requires Linked(head, links, owners) && k < |links| && x == links[k]
    modifies head, links
    ensures Linked(head, Q.Removed(links, k), Without(owners, k))
  {
    Q.PrevIs(head, links, k);
    Q.NextIs(head, links, k);
    Q.TailRemove(head, x, links, k);
    ghost var rest := Q.Removed(links, k);
    assert forall i :: 0 <= i < k ==> rest[i] == links[i] && Without(owners, k)[i] == owners[i];
    assert forall i :: k <= i < |rest| ==> rest[i] == links[i + 1] && Without(owners, k)[i] == owners[i + 1];
  }

  /** The candidate list of a flow; the candidates themselves are not part of it. */
  class CandidateList {
    const head: Entry
    ghost var links: seq<Entry>
    ghost var owners: seq<Candidate>
    ghost var Repr: set<object>

    ghost predicate Valid()
      reads this, Repr
    {
      && this in Repr && head in Repr
      && (forall i :: 0 <= i < |links| ==> links[i] in Repr)
      && Linked(head, links, owners)
    }

    ghost predicate Has(x: Entry, k: nat)
      reads this
    {
      k < |links| && x == links[k]
    }

    constructor ()
      ensures Valid() && fresh(Repr) && links == [] && owners == []
    {
      head := new Q.Link(null);
      links, owners, Repr := [], [], {this, head};
      new;
      Q.TailInit(head);
    }

    method First() returns (x: Q.Link?<Candidate?>)
      requires Valid()
      ensures x == if links == [] then null else links[0]
    {
      Q.FirstIs(head, links);
      x := head.next;
    }

    method Next(x: Entry, ghost k: nat) returns (y: Q.Link?<Candidate?>)
      requires Valid() && Has(x, k)
      ensures y == if k + 1 < |links| then links[k + 1] else null
    {
      Q.NextIs(head, links, k);
      y := x.next;
    }

    method At(x: Entry, ghost k: nat) returns (c: Candidate)
      requires Valid() && Has(x, k)
      ensures c == owners[k]
    {
      assert links[k].owner == owners[k];
      c := x.owner;
    }

    /** TAILQ_INSERT_TAIL of a new candidate. */
    method Append(c: Candidate)
      requires Valid()
      modifies Repr
      ensures Valid() && fresh(Repr - old(Repr)) && owners == old(owners) + [c]
    {
      var x := new Q.Link<Candidate?>(c);
      Attach(x, c);
    }

    method Attach(x: Entry, ghost c: Candidate)
      requires Valid() && x !in Repr && x.owner == c
      modifies Repr, x
      ensures Valid() && Repr == old(Repr) + {x} && owners == old(owners) + [c]
    {
      Q.TailInsertTail(head, x, links);
      links, owners, Repr := links + [x], owners + [c], Repr + {x};
    }

    method Remove(x: Entry, ghost k: nat)
      requires Valid() && Has(x, k)
      modifies Repr
      ensures Valid() && Repr == old(Repr) && owners == Without(old(owners), k)
    {
      UnlinkCandidate(head, x, links, owners, k);
      links, owners := Q.Removed(links, k), Without(owners, k);
    }
  }

  // ---------------------------------------------------------------- what the candidates hold

  ghost predicate Holds(all: seq<Candidate>, cands: seq<Status>)
    reads all
  {
    |all| == |cands| && forall i :: 0 <= i < |all| ==> all[i].index == i && all[i].Status() == cands[i]
  }

  /** Whoever can still be heard of is on the list: no handler finds a candidate that was freed. */
  ghost predicate Reachable(all: seq<Candidate>, cands: seq<Status>, owners: seq<Candidate>) {
    && |all| == |cands|
    && (forall i :: 0 <= i < |all| && cands[i] != Dropped ==> all[i] in owners)
    && (forall k :: 0 <= k < |owners| ==> owners[k] in all)
  }

  method SetState(c: Candidate, timer: bool, handle: Handle,
                  ghost all: seq<Candidate>, ghost cands: seq<Status>, ghost to: Status)
    requires Holds(all, cands) && c in all
    requires to == StatusOf(timer, handle)
    modifies c
    ensures c.index < |all| && all[c.index] == c && Holds(all, cands[c.index := to])
  {
    ghost var i :| 0 <= i < |all| && all[i] == c;
    assert c.index == i;
    c.timer, c.handle := timer, handle;
  }

  lemma StillReachable(all: seq<Candidate>, cands: seq<Status>, owners: seq<Candidate>, i: nat, to: Status)
    requires Reachable(all, cands, owners) && i < |all| && (to != Dropped ==> cands[i] != Dropped)
    ensures Reachable(all, cands[i := to], owners)
  {
  }

  lemma ReachableWithout(all: seq<Candidate>, cands: seq<Status>, owners: seq<Candidate>, k: nat)
    requires Reachable(all, cands, owners) && k < |owners|
    requires forall i :: 0 <= i < |all| && all[i] == owners[k] ==> cands[i] == Dropped
    ensures Reachable(all, cands, Without(owners, k))
  {
    var rest := Without(owners, k);
    forall i | 0 <= i < |all| && cands[i] != Dropped ensures all[i] in rest {
      var j :| 0 <= j < |owners| && owners[j] == all[i];
      assert rest[if j < k then j else j - 1] == all[i];
    }
    assert forall j :: 0 <= j < |rest| ==> rest[j] == owners[if j < k then j else j + 1];
  }

  // ---------------------------------------------------------------- the race

  function Up(c: Byte): Byte { if c == 255 then 0 else c + 1 }

  function Down(c: Byte): Byte { if c == 0 then 255 else c - 1 }

  class Race {
    const list: CandidateList
    ghost const all: seq<Candidate>
    ghost var cands: seq<Status>
    var first: bool
    var pending: bool
    var count: Byte
    var socket: Candidate?
    var reports: seq<Report>

    ghost predicate Apart()
      reads list
    {
      this !in list.Repr && forall i :: 0 <= i < |all| ==> all[i] !in list.Repr
    }

    ghost predicate Valid()
      reads this, list, list.Repr, all
    {
      list.Valid() && Apart() && Holds(all, cands) && Reachable(all, cands, list.owners)
    }

    ghost function View(): State
      reads this
    {
      State(cands, first, pending, count as nat, if socket == null then None else Some(socket.index), reports)
    }

    /** The flow takes over the list that candidate preparation left. */
    constructor (list: CandidateList, ghost cands: seq<Status>)
      requires list.Valid() && Holds(list.owners, cands)
      requires forall k :: 0 <= k < |list.owners| ==> list.owners[k] !in list.Repr
      ensures Valid() && this.list == list && all == list.owners && this.cands == cands
    {
      this.list, all, this.cands := list, list.owners, cands;
      first, pending, count, socket, reports := true, false, 0, null, [];
    }

    /** A candidate's timer and handle change. */
    method Change(c: Candidate, timer: bool, handle: Handle, ghost to: Status)
      requires Valid() && c in all && c.index < |cands| && (to != Dropped ==> cands[c.index] != Dropped)
      requires to == StatusOf(timer, handle)
      modifies this`cands, c
      ensures Valid() && cands == old(cands)[c.index := to]
    {
      SetState(c, timer, handle, all, cands, to);
      StillReachable(all, cands, list.owners, c.index, to);
      cands := cands[c.index := to];
    }

    method CountDown()
      modifies this`count, this`reports
      ensures count as nat == Decrement(old(count) as nat)
      ensures reports == if count == 0 then old(reports) + [AllFailed] else old(reports)
    {
      count := Down(count);
      if count == 0 {
        reports := reports + [AllFailed];
      }
    }

    /** A candidate that was given up leaves the list and is freed. */
    method Free(x: Entry, ghost k: nat)
      requires Valid() && list.Has(x, k)
      requires forall i :: 0 <= i < |all| && all[i] == list.owners[k] ==> cands[i] == Dropped
      modifies list.Repr
      ensures Valid() && list.Repr == old(list.Repr)
    {
      ReachableWithout(all, cands, list.owners, k);
      list.Remove(x, k);
    }

    /** A candidate fails: its handle goes and the attempt is counted down. */
    method Fail(c: Candidate)
      requires Valid() && c in all && c.index < |cands|
      modifies this`cands, this`count, this`reports, c
      ensures Valid() && View() == Drop(old(View()), c.index)
    {
      Change(c, false, Gone, Dropped);
      CountDown();
    }

    /** A candidate is given up. When the timer's attempt was the last one, it is not even freed. */
    method GiveUp(x: Entry, atTimer: bool, ghost k: nat)
      requires Valid() && list.Has(x, k) && list.owners[k].index < |cands|
      modifies this`cands, this`count, this`reports, list.owners[k], list.Repr
      ensures Valid() && list.Repr == old(list.Repr)
      ensures View() == Drop(old(View()), old(list.owners[k].index))
    {
      var c := list.At(x, k);
      Fail(c);
      if !atTimer || count != 0 {
        Free(x, k);
      }
    }

    /** The statuses once the first `k` timers are started. */
    ghost predicate Started(k: nat)
      reads this
    {
      && |cands| == |all| && k <= |all|
      && forall i :: 0 <= i < |all| ==> cands[i] == if i < k then Waiting else Dropped
    }

    /** delayed_he_connect_req for one candidate, and its count. */
    method StartTimer(x: Entry, ghost k: nat)
      requires Valid() && list.owners == all && list.Has(x, k) && Started(k)
      modifies this`cands, this`count, all[k]
      ensures Valid() && Started(k + 1) && count as nat == Increment(old(count) as nat)
    {
      var c := list.At(x, k);
      SetState(c, true, Allocated, all, cands, Waiting);
      cands := cands[k := Waiting];
      count := Up(count);
    }

    /** The loop over the candidates: one timer each, counted in 8 bits. */
    method StartTimers()
      requires Valid() && list.owners == all && Started(0) && count == 0
      modifies this`cands, this`count, all
      ensures Valid() && Started(|all|) && count as nat == Wrap(|all|)
    {
      ghost var k := 0;
      var x := list.First();
      while x != null
        invariant k <= |all| && x == if k < |all| then list.links[k] else null
        invariant Valid() && Started(k) && count as nat == Wrap(k)
        decreases |all| - k
      {
        WrapStep(k);
        var y := list.Next(x, k);
        StartTimer(x, k);
        x, k := y, k + 1;
      }
    }

    /** nt_he_open. */
    method Open()
      requires Valid() && list.owners == all && Started(0)
      modifies this, all
      ensures Valid() && View() == Opened(|all|)
    {
      first, pending, socket, reports, count := true, false, null, [], 0;
      StartTimers();
      assert cands == Opened(|all|).cands;
    }

    /** on_he_connect_req: the timer is gone, and connecting starts to poll or fails. */
    method TimerFired(x: Entry, started: bool, ghost k: nat)
      requires Valid() && list.Has(x, k) && list.owners[k].timer
      modifies this`cands, this`count, this`reports, list.owners[k], list.Repr
      ensures Valid() && list.Repr == old(list.Repr)
      ensures View() == Step(old(View()), Timer(old(list.owners[k].index), started))
    {
      var c := list.At(x, k);
      Indexed(c);
      if started {
        Change(c, false, Polling, Connecting);
      } else {
        GiveUp(x, true, k);
      }
    }

    lemma Indexed(c: Candidate)
      requires Valid() && c in all
      ensures c.index < |cands| && all[c.index] == c && cands[c.index] == c.Status()
    {
      var i :| 0 <= i < |all| && all[i] == c;
    }

    /** he_connected_cb when getsockopt failed: the handle is closed, the candidate stays. */
    method Break(c: Candidate)
      requires Valid() && c in all && c.index < |cands| && cands[c.index] == Connecting
      modifies this`cands, this`reports, c
      ensures Valid()
      ensures View() == OnReady(old(View()), c.index, Unreadable, false)
    {
      Change(c, false, Closed, Broken);
      reports := reports + [Internal];
    }

    /** he_connected_cb for the first success: the handle goes over to the flow's socket. */
    method Win(c: Candidate, cleared: bool)
      requires Valid() && c in all && c.index < |cands| && cands[c.index] == Connecting && first && !pending
      modifies this`cands, this`first, this`pending, this`socket, c
      ensures Valid()
      ensures View() == OnReady(old(View()), c.index, Connected(false), cleared)
    {
      Change(c, false, Handed, Winner);
      first, socket, pending := false, c, true;
      if cleared {
        pending := false;
      }
    }

    /** he_connected_cb. */
    method HandleReady(x: Entry, outcome: Outcome, cleared: bool, ghost k: nat)
      requires Valid() && list.Has(x, k) && list.owners[k].Status() == Connecting
      modifies this, list.owners[k], list.Repr
      ensures Valid() && list.Repr == old(list.Repr)
      ensures View() == Step(old(View()), Ready(old(list.owners[k].index), outcome, cleared))
    {
      var c := list.At(x, k);
      Indexed(c);
      if outcome == Unreadable {
        Break(c);
      } else if pending {
        pending := !cleared;
      } else if first && outcome.Connected? && !outcome.turnedDown {
        Win(c, cleared);
      } else {
        GiveUp(x, false, k);
      }
    }
  }
}
