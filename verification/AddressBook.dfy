/**
 The source list told by the events alone: which addresses are listed, with which preferred lifetime,
 and whether the first dump of addresses is over.
 */
module AddressBook {
  import opened Types
  import opened Resolver
  import opened ResolverProofs

  /** The preferred lifetime after a second: only a limited one of an IPv6 address runs down. */
  function Older(f: Family, pref: nat): nat {
    if f == V6 && 0 < pref && pref != 0xffff_ffff then pref - 1 else pref
  }

  /** What an address event makes of a listing: it lists an address that is not listed, even as a delete
      event; otherwise it deletes it or renews an IPv6 lifetime. */
  function Relisted(listing: Option<nat>, e: Event, f: Family, i: nat, a: nat): Option<nat>
    requires e.Address?
  {
    if (e.family, e.ifIdx, e.ip) != (f, i, a) then listing
    else if listing.None? then Some(e.pref)
    else if !e.added then None
    else if f == V6 then Some(e.pref)
    else listing
  }

  /** The preferred lifetime of an address, if it is listed. */
  function Listing(events: seq<Event>, f: Family, i: nat, a: nat): Option<nat> {
    if events == [] then None
    else
      var before, e := Listing(events[..|events| - 1], f, i, a), events[|events| - 1];
      if e.Tick? then (if before.Some? then Some(Older(f, before.value)) else None)
      else if e.Address? then Relisted(before, e, f, i, a)
      else before
  }

  ghost predicate Has(sources: seq<Source>, f: Family, i: nat, a: nat, pref: nat) {
    exists k :: 0 <= k < |sources| && sources[k].Is(f, i, a) && sources[k].pref == pref
  }

  ghost predicate HasNone(sources: seq<Source>, f: Family, i: nat, a: nat) {
    forall k :: 0 <= k < |sources| ==> !sources[k].Is(f, i, a)
  }

  ghost predicate Agrees(sources: seq<Source>, f: Family, i: nat, a: nat, listing: Option<nat>) {
    if listing.Some? then Has(sources, f, i, a, listing.value) else HasNone(sources, f, i, a)
  }

  lemma AgedAgrees(sources: seq<Source>, f: Family, i: nat, a: nat, listing: Option<nat>)
    requires Agrees(sources, f, i, a, listing)
    ensures Agrees(Aged(sources), f, i, a, if listing.Some? then Some(Older(f, listing.value)) else None)
  {
    if listing.Some? {
      var k :| 0 <= k < |sources| && sources[k].Is(f, i, a) && sources[k].pref == listing.value;
      assert Aged(sources)[k].Is(f, i, a);
    }
  }

  lemma InsertAgrees(sources: seq<Source>, x: Source, f: Family, i: nat, a: nat, listing: Option<nat>)
    requires Agrees(sources, f, i, a, listing) && HasNone(sources, x.family, x.ifIdx, x.ip)
    ensures Agrees([x] + sources, f, i, a, if x.Is(f, i, a) then Some(x.pref) else listing)
  {
    var t := [x] + sources;
    assert t[0] == x;
    if listing.Some? {
      var k :| 0 <= k < |sources| && sources[k].Is(f, i, a) && sources[k].pref == listing.value;
      assert t[k + 1] == sources[k];
    }
  }

  lemma DeleteAgrees(sources: seq<Source>, next: nat, at: nat, f: Family, i: nat, a: nat, listing: Option<nat>)
    requires SourcesOk(sources, next) && at < |sources| && Agrees(sources, f, i, a, listing)
    ensures Agrees(sources[..at] + sources[at + 1..], f, i, a, if sources[at].Is(f, i, a) then None else listing)
  {
    var t := sources[..at] + sources[at + 1..];
    assert forall k :: 0 <= k < |t| ==> t[k] == sources[if k < at then k else k + 1];
    if listing.Some? && !sources[at].Is(f, i, a) {
      var k :| 0 <= k < |sources| && sources[k].Is(f, i, a) && sources[k].pref == listing.value;
      assert t[if k < at then k else k - 1] == sources[k];
    }
  }

  lemma RenewAgrees(
      sources: seq<Source>, next: nat, at: nat, pref: nat, f: Family, i: nat, a: nat, listing: Option<nat>)
    requires SourcesOk(sources, next) && at < |sources| && Agrees(sources, f, i, a, listing)
    ensures Agrees(sources[at := sources[at].(pref := pref)], f, i, a,
                   if sources[at].Is(f, i, a) then Some(pref) else listing)
  {
    var t := sources[at := sources[at].(pref := pref)];
    assert t[at].pref == pref;
    if listing.Some? && !sources[at].Is(f, i, a) {
      var k :| 0 <= k < |sources| && sources[k].Is(f, i, a) && sources[k].pref == listing.value;
      assert t[k] == sources[k];
    }
  }

  lemma AddressAgrees(s: State, e: Event, f: Family, i: nat, a: nat, listing: Option<nat>)
    requires SourcesOk(s.sources, s.nextSource) && e.Address? && Agrees(s.sources, f, i, a, listing)
    ensures Agrees(OnAddress(s, e).sources, f, i, a, Relisted(listing, e, f, i, a))
  {
    var at := IndexOf(s.sources, e.family, e.ifIdx, e.ip);
    if at.None? {
      InsertAgrees(s.sources, Source(s.nextSource, e.ifIdx, e.family, e.ip, e.pref), f, i, a, listing);
    } else if !e.added {
      DeleteAgrees(s.sources, s.nextSource, at.value, f, i, a, listing);
    } else {
      RenewAgrees(s.sources, s.nextSource, at.value, e.pref, f, i, a, listing);
    }
  }

  lemma OtherSources(s: State, e: Event)
    requires Slotted(s) && !e.Tick? && !e.Address?
    ensures Step(s, e).sources == s.sources
  {
  }

  /** In every run the source list has exactly the addresses that the events list, each once and with
      the lifetime they leave it. */
  lemma {:induction false} SourcesAreListed(events: seq<Event>, f: Family, i: nat, a: nat)
    ensures Agrees(Run(events).sources, f, i, a, Listing(events, f, i, a))
    decreases |events|
  {
    if events != [] {
      var before, e := events[..|events| - 1], events[|events| - 1];
      SourcesAreListed(before, f, i, a);
      var s := Run(before);
      match e
      case Tick => AgedAgrees(s.sources, f, i, a, Listing(before, f, i, a));
      case Address(_, _, _, _, _, _) => AddressAgrees(s, e, f, i, a, Listing(before, f, i, a));
      case _ => OtherSources(s, e);
    }
  }

  lemma StepDumps(s: State, e: Event)
    requires Slotted(s)
    ensures Step(s, e).dumped <==> s.dumped || e.Dumped?
  {
  }

  lemma {:induction false} DumpedIff(events: seq<Event>)
    ensures Run(events).dumped <==> Dumped in events
    decreases |events|
  {
    if events != [] {
      var n := |events| - 1;
      DumpedIff(events[..n]);
      StepDumps(Run(events[..n]), events[n]);
      assert events == events[..n] + [events[n]];
    }
  }
}
