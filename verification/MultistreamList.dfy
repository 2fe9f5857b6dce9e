/**
 The association in place: flow objects on the intrusive list of their socket, found by walking
 its links, unlinked when they leave.
 */
module MultistreamList {
  import opened Types
  import opened Multistream
  import Q = Queues

  class FlowObject {
    const id: nat
    const sid: nat
    var open: bool
    var resetIn: bool
    var resetOut: bool

    constructor (id: nat, sid: nat, open: bool)
      ensures Value() == Flow(id, sid, open, false, false)
    {
      this.id, this.sid, this.open, resetIn, resetOut := id, sid, open, false, false;
    }

    ghost function Value(): Flow
      reads this
    {
      Flow(id, sid, open, resetIn, resetOut)
    }
  }

  type Entry = Q.Link<FlowObject?>

  /** The objects hold these flows. */
  ghost predicate Holds(owners: seq<FlowObject>, flows: seq<Flow>)
    reads owners
  {
    |flows| == |owners| && forall i :: 0 <= i < |owners| ==> owners[i].Value() == flows[i]
  }

  ghost function Without(owners: seq<FlowObject>, k: nat): seq<FlowObject>
    requires k < |owners|
  {
    owners[..k] + owners[k + 1..]
  }

  lemma HoldsWithout(owners: seq<FlowObject>, flows: seq<Flow>, k: nat)
    requires k < |owners| && Holds(owners, flows)
    ensures Holds(Without(owners, k), Remove(flows, k))
  {
    assert forall i :: 0 <= i < k ==> Without(owners, k)[i] == owners[i] && Remove(flows, k)[i] == flows[i];
    assert forall i :: k <= i < |owners| - 1 ==>
      Without(owners, k)[i] == owners[i + 1] && Remove(flows, k)[i] == flows[i + 1];
  }

  lemma HoldsMore(owners: seq<FlowObject>, flows: seq<Flow>, f: FlowObject)
    requires Holds(owners, flows)
    ensures Holds([f] + owners, [f.Value()] + flows)
  {
    var more, values := [f] + owners, [f.Value()] + flows;
    assert forall i :: 1 <= i < |more| ==> more[i] == owners[i - 1] && values[i] == flows[i - 1];
  }

  /** The links in order, each inside its flow, and no flow twice. */
  ghost predicate Linked(head: Entry, links: seq<Entry>, owners: seq<FlowObject>)
    reads head, links
  {
    && Q.List(head, links)
    && |owners| == |links|
    && (forall i :: 0 <= i < |links| ==> links[i].owner == owners[i])
    && (forall i, j :: 0 <= i < j < |owners| ==> owners[i] != owners[j])
  }

  /** LIST_REMOVE of the flow at place `k`. */
  method UnlinkFlow(head: Entry, x: Entry, ghost links: seq<Entry>, ghost owners: seq<FlowObject>, ghost k: nat)
    requires Linked(head, links, owners) && k < |links| && x == links[k]
    modifies head, links
    ensures Linked(head, Q.Removed(links, k), Without(owners, k))
  {
    Q.PrevIs(head, links, k);
    Q.NextIs(head, links, k);
    Q.ListRemove(head, x, links, k);
    ghost var rest := Q.Removed(links, k);
    assert forall i :: 0 <= i < k ==> rest[i] == links[i] && Without(owners, k)[i] == owners[i];
    assert forall i :: k <= i < |rest| ==> rest[i] == links[i + 1] && Without(owners, k)[i] == owners[i + 1];
  }

  /** LIST_INSERT_HEAD of a new flow. */
  method LinkFlow(head: Entry, x: Entry, ghost f: FlowObject, ghost links: seq<Entry>, ghost owners: seq<FlowObject>)
    requires Linked(head, links, owners) && x != head && x !in links && f !in owners && x.owner == f
    modifies head, links, x
    ensures Linked(head, [x] + links, [f] + owners)
  {
    Q.FirstIs(head, links);
    Q.ListInsertHead(head, x, links);
  }

  /** nt_sctp_get_flow_by_sid: walks the links from the head. */
  method FindFlow(head: Entry, sid: nat, ghost links: seq<Entry>, ghost owners: seq<FlowObject>)
    returns (x: Q.Link?<FlowObject?>, ghost k: nat)
    requires Linked(head, links, owners)
    ensures x == null <==> forall j :: 0 <= j < |owners| ==> owners[j].sid != sid
    ensures x != null ==> x in links && x.owner != null && x.owner.sid == sid
    ensures k <= |links| && x == if k < |links| then links[k] else null
    ensures forall j :: 0 <= j < k ==> owners[j].sid != sid
    ensures x != null ==> owners[k].sid == sid
  {
    k := 0;
    Q.FirstIs(head, links);
    x := head.next;
    while x != null
      invariant k <= |links| && x == if k < |links| then links[k] else null
      invariant forall j :: 0 <= j < k ==> owners[j].sid != sid
      decreases |links| - k
    {
      assert links[k].owner == owners[k];
      if x.owner.sid == sid {
        return;
      }
      Q.NextIs(head, links, k);
      x, k := x.next, k + 1;
    }
  }

  /** The walk finds the first flow of the specification. */
  lemma FoundIs(owners: seq<FlowObject>, flows: seq<Flow>, sid: nat, k: nat)
    requires Holds(owners, flows) && k <= |owners|
    requires (forall j :: 0 <= j < k ==> owners[j].sid != sid) && (k < |owners| ==> owners[k].sid == sid)
    ensures IndexOf(flows, Sid(sid)) == if k < |owners| then Some(k) else None
  {
    var r := IndexOf(flows, Sid(sid));
    assert forall j :: 0 <= j < |owners| ==> owners[j].Value().sid == flows[j].sid;
    if k < |owners| {
      assert Sid(sid).Names(flows[k]);
    }
    if r.Some? {
      assert Sid(sid).Names(flows[r.value]);
    }
  }

  ghost predicate Apart(owners: seq<FlowObject>) { forall i, j :: 0 <= i < j < |owners| ==> owners[i] != owners[j] }

  ghost function WithReset(f: Flow, incoming: bool): Flow {
    if incoming then f.(resetIn := true) else f.(resetOut := true)
  }

  method MarkReset(f: FlowObject, incoming: bool, ghost owners: seq<FlowObject>, ghost flows: seq<Flow>, ghost k: nat)
    requires Apart(owners) && k < |owners| && owners[k] == f && Holds(owners, flows)
    modifies f
    ensures Holds(owners, flows[k := WithReset(flows[k], incoming)])
  {
    if incoming {
      f.resetIn := true;
    } else {
      f.resetOut := true;
    }
  }

  method MarkClosed(f: FlowObject, ghost owners: seq<FlowObject>, ghost flows: seq<Flow>, ghost k: nat)
    requires Apart(owners) && k < |owners| && owners[k] == f && Holds(owners, flows)
    modifies f
    ensures Holds(owners, flows[k := flows[k].(open := false)])
  {
    f.open := false;
  }

  /** The list itself; `flows` is what its objects hold. */
  class FlowList {
    const head: Entry
    ghost var links: seq<Entry>
    ghost var owners: seq<FlowObject>
    ghost var flows: seq<Flow>
    ghost var Repr: set<object>

    ghost predicate Valid()
      reads this, Repr
    {
      && this in Repr && head in Repr
      && (forall i :: 0 <= i < |links| ==> links[i] in Repr)
      && (forall i :: 0 <= i < |owners| ==> owners[i] in Repr)
      && Linked(head, links, owners) && Holds(owners, flows)
    }

    ghost predicate Has(x: Entry, k: nat)
      reads this
    {
      k < |links| && x == links[k]
    }

    constructor ()
      ensures Valid() && fresh(Repr) && flows == []
    {
      head := new Q.Link(null);
      links, owners, flows := [], [], [];
      Repr := {this, head};
      new;
      Q.ListInit(head);
    }

    method Find(sid: nat) returns (x: Q.Link?<FlowObject?>, ghost k: nat)
      requires Valid()
      ensures x == null <==> IndexOf(flows, Sid(sid)).None?
      ensures x != null ==> Has(x, k) && IndexOf(flows, Sid(sid)) == Some(k)
    {
      x, k := FindFlow(head, sid, links, owners);
      FoundIs(owners, flows, sid, k);
    }

    /** The flow an element belongs to. */
    method At(x: Entry, ghost k: nat) returns (f: FlowObject)
      requires Valid() && Has(x, k)
      ensures f == owners[k] && f.Value() == flows[k]
    {
      assert links[k].owner == owners[k];
      f := x.owner;
    }

    method SetReset(x: Entry, incoming: bool, ghost k: nat)
      requires Valid() && Has(x, k)
      modifies Repr
      ensures Valid() && Repr == old(Repr) && links == old(links)
      ensures flows == old(flows)[k := WithReset(old(flows)[k], incoming)]
    {
      var f := At(x, k);
      MarkReset(f, incoming, owners, flows, k);
      flows := flows[k := WithReset(flows[k], incoming)];
    }

    method SetClosed(x: Entry, ghost k: nat)
      requires Valid() && Has(x, k)
      modifies Repr
      ensures Valid() && Repr == old(Repr) && links == old(links)
      ensures flows == old(flows)[k := old(flows)[k].(open := false)]
    {
      var f := At(x, k);
      MarkClosed(f, owners, flows, k);
      flows := flows[k := flows[k].(open := false)];
    }

    method RemoveFlow(x: Entry, ghost k: nat)
      requires Valid() && Has(x, k)
      modifies Repr
      ensures Valid() && Repr == old(Repr) && flows == Remove(old(flows), k)
    {
      UnlinkFlow(head, x, links, owners, k);
      HoldsWithout(owners, flows, k);
      links, owners, flows := Q.Removed(links, k), Without(owners, k), Remove(flows, k);
    }

    method InsertFlow(id: nat, sid: nat) returns (x: Entry)
      requires Valid()
      modifies Repr
      ensures Valid() && fresh(Repr - old(Repr)) && flows == [Flow(id, sid, true, false, false)] + old(flows)
    {
      var f := new FlowObject(id, sid, true);
      x := new Q.Link(f);
      Attach(x, f);
    }

    method Attach(x: Entry, ghost f: FlowObject)
      requires Valid() && x !in Repr && f !in Repr && x.owner == f
      modifies Repr, x
      ensures Valid() && Repr == old(Repr) + {x, f} && flows == [old(f.Value())] + old(flows)
    {
      LinkFlow(head, x, f, links, owners);
      HoldsMore(owners, flows, f);
      links, owners, flows := [x] + links, [f] + owners, [f.Value()] + flows;
      Repr := Repr + {x, f};
    }
  }

  /** The count of one association and its list. The ghost fields are history: who decremented the
      count, who left, and which other flows were listed when the socket was closed. */
  class Association {
    const list: FlowList
    var enabled: bool
    var used: int
    var fault: bool
    ghost var decrements: seq<nat>
    ghost var gone: seq<nat>
    ghost var closings: seq<seq<Flow>>
    ghost var early: nat

    ghost predicate Valid()
      reads this, list, list.Repr
    {
      list.Valid() && this !in list.Repr
    }

    ghost function View(): State
      reads this, list
    {
      State(enabled, used, list.flows, decrements, gone, closings, early, fault)
    }

    constructor ()
      ensures Valid() && fresh(list.Repr) && View() == Fresh()
    {
      list := new FlowList();
      enabled, used, fault := false, 0, false;
      decrements, gone, closings, early := [], [], [], 0;
    }

    /** The part of neat_close that may close the socket. */
    method CloseSocketIfUnused(ghost k: nat)
      requires k < |list.flows|
      modifies this`closings
      ensures View() == MaybeCloseSocket(old(View()), k)
    {
      if used == 0 {
        closings := closings + [Remove(list.flows, k)];
      }
    }

    /** The calls of neat_close that the application makes inside on_close. */
    method CloseRepeatedly(ghost k: nat, again: nat)
      requires k < |list.flows|
      modifies this`closings
      ensures View() == CloseAgain(old(View()), k, again)
    {
      var n := again;
      while n > 0
        invariant View() == old(View()).(closings := closings)
        invariant CloseAgain(View(), k, n) == CloseAgain(old(View()), k, again)
      {
        CloseSocketIfUnused(k);
        n := n - 1;
      }
    }

    /** The flow is CLOSED before the application hears of it. */
    method RunOnClose(x: Entry, again: nat, ghost k: nat)
      requires Valid() && list.Has(x, k)
      modifies this`closings, list.Repr
      ensures Valid() && list.Repr == old(list.Repr) && list.Has(x, k)
      ensures View() ==
              CloseAgain(old(View()).(flows := old(list.flows)[k := old(list.flows)[k].(open := false)]), k, again)
    {
      list.SetClosed(x, k);
      CloseRepeatedly(k, again);
    }

    /** nt_free_flow takes the flow off the list. */
    method Leave(x: Entry, id: nat, ghost k: nat)
      requires Valid() && list.Has(x, k)
      modifies this`gone, list.Repr
      ensures Valid() && list.Repr == old(list.Repr)
      ensures View() == old(View()).(flows := Remove(old(list.flows), k), gone := old(gone) + [id])
    {
      list.RemoveFlow(x, k);
      gone := gone + [id];
    }

    /** nt_notify_close with the application's on_close, then nt_free_flow. */
    method NotifyClosed(x: Entry, again: nat, ghost k: nat)
      requires Valid() && list.Has(x, k)
      modifies this`closings, this`gone, list.Repr
      ensures Valid() && list.Repr == old(list.Repr)
      ensures View() == NotifyClose(old(View()), k, again)
    {
      var f := list.At(x, k);
      if !f.open {
        return;
      }
      var id := f.id;
      RunOnClose(x, again, k);
      Leave(x, id, k);
    }

    /** The decrement of sctp_streams_used. */
    method CountDown(id: nat)
      modifies this`used, this`decrements
      ensures View() == Decrement(old(View()), id)
    {
      used, decrements := used - 1, decrements + [id];
    }

    /** nt_sctp_handle_reset_stream for one stream and one direction. */
    method ResetStream(sid: nat, incoming: bool, again: nat)
      requires Valid()
      modifies this, list.Repr
      ensures Valid() && list.Repr == old(list.Repr)
      ensures View() == Step(old(View()), Reset(sid, incoming, again))
    {
      var x, k := list.Find(sid);
      if x == null {
        fault := true;
      } else {
        ResetFlow(x, incoming, again, k);
      }
    }

    method ResetFlow(x: Entry, incoming: bool, again: nat, ghost k: nat)
      requires Valid() && list.Has(x, k)
      modifies this, list.Repr
      ensures Valid() && list.Repr == old(list.Repr)
      ensures var s := old(View());
              View() == if (if incoming then s.flows[k].resetIn else s.flows[k].resetOut) then s
                        else HandleReset(s, k, incoming, again)
    {
      var f := list.At(x, k);
      if if incoming then f.resetIn else f.resetOut {
        return;
      }
      list.SetReset(x, incoming, k);
      FinishReset(x, again, k);
    }

    /** With both directions reset the flow is counted down and told. */
    method FinishReset(x: Entry, again: nat, ghost k: nat)
      requires Valid() && list.Has(x, k)
      modifies this, list.Repr
      ensures Valid() && list.Repr == old(list.Repr)
      ensures View() == Resettled(old(View()), k, again)
    {
      var f := list.At(x, k);
      if f.resetIn && f.resetOut {
        CountDown(f.id);
        if !f.open {
          early := early + 1;
        }
        NotifyClosed(x, again, k);
      }
    }

    /** neat_close on a flow of the association. */
    method CloseFlow(x: Entry, again: nat, ghost k: nat)
      requires Valid() && list.Has(x, k)
      modifies this, list.Repr
      ensures Valid() && list.Repr == old(list.Repr)
      ensures View() == HandleClose(old(View()), k, again)
    {
      var f := list.At(x, k);
      if f.open {
        CountDown(f.id);
      }
      CloseSocketIfUnused(k);
      NotifyClosed(x, again, k);
    }

    /** The piggyback branch of nt_he_open: the stream number is the new count. */
    method PiggybackFlow(id: nat) returns (x: Entry)
      requires Valid() && enabled && Unknown(View(), id)
      modifies this, list.Repr
      ensures Valid() && fresh(list.Repr - old(list.Repr))
      ensures View() == Step(old(View()), Piggyback(id))
    {
      x := list.InsertFlow(id, if used >= 0 then used + 1 else 0);
      used := used + 1;
    }

    /** io_readable: data on a stream without a flow opens one. */
    method IncomingData(id: nat, sid: nat)
      requires Valid() && enabled && Unknown(View(), id)
      modifies this, list.Repr
      ensures Valid() && fresh(list.Repr - old(list.Repr))
      ensures View() == Step(old(View()), Incoming(id, sid))
    {
      var x, k := list.Find(sid);
      if x == null {
        var _ := list.InsertFlow(id, sid);
        used := used + 1;
      }
    }
  }
}
