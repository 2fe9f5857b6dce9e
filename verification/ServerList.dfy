/**
 The list of DNS servers, kept by mark and sweep over successive versions of resolv.conf.
 */
module ServerList {
  import opened Types

  datatype Address = V4(ip: nat) | V6(ip: nat)

  datatype Mark = Static | Active | Delete

  datatype Server = Server(addr: Address, mark: Mark)

  /** The lines of a file: the address of a `nameserver` or `server` line, or anything else. */
  type File = seq<Option<Address>>

  ghost predicate Lists(f: File, a: Address) { Some(a) in f }

  ghost predicate Present(s: seq<Server>, a: Address) { exists k :: 0 <= k < |s| && s[k].addr == a }

  ghost predicate NoRepeats(s: seq<Server>) { forall j, k :: 0 <= j < k < |s| ==> s[j].addr != s[k].addr }

  /** The servers the resolver starts with; those for IPv6 are parsed as IPv4 and all fail. */
  const BUILTIN: seq<Address> := [V4(0x0808_0808), V4(0x0808_0404), V4(0xd043_dede), V4(0xd043_dcdc)]

  // ---------------------------------------------------------------- one update

  function Reset(s: seq<Server>): (r: seq<Server>)
    ensures |r| == |s|
    ensures forall k :: 0 <= k < |s| ==> r[k] == if s[k].mark == Static then s[k] else s[k].(mark := Delete)
  {
    seq(|s|, k requires 0 <= k < |s| => if s[k].mark == Static then s[k] else s[k].(mark := Delete))
  }

  /** The first entry for `a` becomes active, or a new active entry goes to the head. */
  function MarkFirst(s: seq<Server>, a: Address): seq<Server>
    decreases |s|
  {
    if s == [] then []
    else if s[0].addr == a then [s[0].(mark := Active)] + s[1..]
    else [s[0]] + MarkFirst(s[1..], a)
  }

  ghost function Check(s: seq<Server>, a: Address): seq<Server> {
    if Present(s, a) then MarkFirst(s, a) else [Server(a, Active)] + s
  }

  ghost function ReadLines(s: seq<Server>, f: File): seq<Server>
    decreases |f|
  {
    if f == [] then s
    else
      var r := ReadLines(s, f[..|f| - 1]);
      if f[|f| - 1].Some? then Check(r, f[|f| - 1].value) else r
  }

  function Sweep(s: seq<Server>): (r: seq<Server>)
    ensures forall k :: 0 <= k < |r| ==> r[k] in s && r[k].mark != Delete
    ensures forall k :: 0 <= k < |s| && s[k].mark != Delete ==> s[k] in r
  {
    if s == [] then []
    else
      var n := |s| - 1;
      var r := Sweep(s[..n]);
      if s[n].mark == Delete then r else r + [s[n]]
  }

  ghost function Update(s: seq<Server>, f: File): seq<Server> { Sweep(ReadLines(Reset(s), f)) }

  /** The servers after a sequence of updates; the built-in ones go in head first. */
  function Initial(builtin: seq<Address>): (r: seq<Server>)
    ensures |r| == |builtin|
    ensures forall k :: 0 <= k < |r| ==> r[k] == Server(builtin[|builtin| - 1 - k], Static)
  {
    if builtin == [] then []
    else [Server(builtin[|builtin| - 1], Static)] + Initial(builtin[..|builtin| - 1])
  }

  ghost function Run(builtin: seq<Address>, files: seq<File>): seq<Server>
    decreases |files|
  {
    if files == [] then Initial(builtin)
    else Update(Run(builtin, files[..|files| - 1]), files[|files| - 1])
  }

  // ---------------------------------------------------------------- what every update keeps

  /** `past` and `now` say which addresses were listed by earlier files and by this one so far. */
  ghost predicate Marked(s: seq<Server>, builtin: seq<Address>, past: iset<Address>, now: iset<Address>) {
    && NoRepeats(s)
    && (forall k :: 0 <= k < |s| ==>
          && (s[k].mark == Active <==> s[k].addr in now)
          && (s[k].mark == Static <==> s[k].addr in builtin && s[k].addr !in past && s[k].addr !in now))
    && (forall a :: a in now ==> Present(s, a))
    && (forall a :: a in builtin && a !in past && a !in now ==> Present(s, a))
  }

  ghost predicate Swept(s: seq<Server>) { forall k :: 0 <= k < |s| ==> s[k].mark != Delete }

  lemma ResetKeeps(s: seq<Server>, builtin: seq<Address>, past: iset<Address>, now: iset<Address>)
    requires Marked(s, builtin, past, now)
    ensures Marked(Reset(s), builtin, past + now, iset{})
  {
    var r := Reset(s);
    forall a | a in builtin && a !in past + now ensures Present(r, a) {
      var k :| 0 <= k < |s| && s[k].addr == a;
      assert r[k].addr == a;
    }
  }

  /** Marking changes one mark and no address. */
  lemma {:induction false} MarkFirstAt(s: seq<Server>, a: Address, at: nat)
    requires NoRepeats(s) && at < |s| && s[at].addr == a
    ensures MarkFirst(s, a) == s[at := s[at].(mark := Active)]
    decreases |s|
  {
    if at > 0 {
      MarkFirstAt(s[1..], a, at - 1);
    }
  }

  lemma RemarkKeeps(s: seq<Server>, at: nat, builtin: seq<Address>, past: iset<Address>, now: iset<Address>)
    requires Marked(s, builtin, past, now) && at < |s|
    ensures Marked(s[at := s[at].(mark := Active)], builtin, past, now + iset{s[at].addr})
  {
    var r := s[at := s[at].(mark := Active)];
    assert forall k :: 0 <= k < |s| ==> r[k].addr == s[k].addr;
    forall b | Present(s, b) ensures Present(r, b) {
      var k :| 0 <= k < |s| && s[k].addr == b;
      assert r[k].addr == b;
    }
    assert Present(s, s[at].addr);
  }

  lemma InsertKeeps(s: seq<Server>, a: Address, builtin: seq<Address>, past: iset<Address>, now: iset<Address>)
    requires Marked(s, builtin, past, now) && !Present(s, a)
    ensures Marked([Server(a, Active)] + s, builtin, past, now + iset{a})
  {
    var r := [Server(a, Active)] + s;
    assert forall k :: 0 <= k < |s| ==> s[k].addr != a;
    assert r[0].addr == a;
    forall b | Present(s, b) ensures Present(r, b) {
      var k :| 0 <= k < |s| && s[k].addr == b;
      assert r[k + 1].addr == b;
    }
  }

  lemma CheckKeeps(s: seq<Server>, a: Address, builtin: seq<Address>, past: iset<Address>, now: iset<Address>)
    requires Marked(s, builtin, past, now)
    ensures Marked(Check(s, a), builtin, past, now + iset{a})
  {
    if Present(s, a) {
      var at :| 0 <= at < |s| && s[at].addr == a;
      MarkFirstAt(s, a, at);
      RemarkKeeps(s, at, builtin, past, now);
    } else {
      InsertKeeps(s, a, builtin, past, now);
    }
  }

  ghost function Listed(f: File): iset<Address> { iset a | Lists(f, a) }

  lemma {:induction false} LinesKeep(s: seq<Server>, f: File, builtin: seq<Address>, past: iset<Address>)
    requires Marked(s, builtin, past, iset{})
    ensures Marked(ReadLines(s, f), builtin, past, Listed(f))
    decreases |f|
  {
    if f == [] {
      assert Listed(f) == iset{};
    } else {
      var n := |f| - 1;
      LinesKeep(s, f[..n], builtin, past);
      assert f == f[..n] + [f[n]];
      if f[n].Some? {
        CheckKeeps(ReadLines(s, f[..n]), f[n].value, builtin, past, Listed(f[..n]));
        assert Listed(f) == Listed(f[..n]) + iset{f[n].value};
      } else {
        assert Listed(f) == Listed(f[..n]);
      }
    }
  }

  lemma {:induction false} SweepNoRepeats(s: seq<Server>)
    requires NoRepeats(s)
    ensures NoRepeats(Sweep(s))
    decreases |s|
  {
    if s != [] {
      var n := |s| - 1;
      SweepNoRepeats(s[..n]);
      var r := Sweep(s[..n]);
      assert forall k :: 0 <= k < |r| ==> r[k].addr != s[n].addr;
    }
  }

  lemma SweepKeeps(s: seq<Server>, builtin: seq<Address>, past: iset<Address>, now: iset<Address>)
    requires Marked(s, builtin, past, now)
    ensures Marked(Sweep(s), builtin, past, now) && Swept(Sweep(s))
  {
    SweepNoRepeats(s);
    var r := Sweep(s);
    forall a | a in now || (a in builtin && a !in past) ensures Present(r, a) {
      var k :| 0 <= k < |s| && s[k].addr == a;
      assert s[k] in r;
    }
  }

  ghost predicate Distinct(builtin: seq<Address>) { forall i, j :: 0 <= i < j < |builtin| ==> builtin[i] != builtin[j] }

  ghost function Last(files: seq<File>): iset<Address> {
    if files == [] then iset{} else Listed(files[|files| - 1])
  }

  ghost function Earlier(files: seq<File>): iset<Address> {
    if files == [] then iset{}
    else Earlier(files[..|files| - 1]) + Last(files[..|files| - 1])
  }

  lemma {:induction false} RunKeeps(builtin: seq<Address>, files: seq<File>)
    requires Distinct(builtin)
    ensures Marked(Run(builtin, files), builtin, Earlier(files), Last(files)) && Swept(Run(builtin, files))
    decreases |files|
  {
    if files == [] {
      var s := Initial(builtin);
      forall a | a in builtin ensures Present(s, a) {
        var k :| 0 <= k < |builtin| && builtin[k] == a;
        assert s[|builtin| - 1 - k].addr == a;
      }
    } else {
      var n := |files| - 1;
      RunKeeps(builtin, files[..n]);
      var s := Run(builtin, files[..n]);
      ResetKeeps(s, builtin, Earlier(files[..n]), Last(files[..n]));
      LinesKeep(Reset(s), files[n], builtin, Earlier(files));
      SweepKeeps(ReadLines(Reset(s), files[n]), builtin, Earlier(files), Last(files));
    }
  }

  ghost predicate Ever(files: seq<File>, a: Address) { exists i :: 0 <= i < |files| && Lists(files[i], a) }

  lemma {:induction false} EverIs(files: seq<File>, a: Address)
    ensures Ever(files, a) <==> a in Earlier(files) || a in Last(files)
    decreases |files|
  {
    if files != [] {
      var n := |files| - 1;
      EverIs(files[..n], a);
      if Ever(files, a) {
        var i :| 0 <= i < |files| && Lists(files[i], a);
        if i < n {
          assert Lists(files[..n][i], a);
        }
      } else {
        assert !Lists(files[n], a);
        assert !Ever(files[..n], a);
      }
    }
  }

  /** After every sequence of updates no address is listed twice, and an address is in the list
      exactly when the last file has it, as an active entry, or it is built in and no file ever had
      it, as a static entry. */
  lemma MarkAndSweep(builtin: seq<Address>, files: seq<File>, a: Address)
    requires Distinct(builtin)
    ensures var s := Run(builtin, files);
            && NoRepeats(s) && Swept(s)
            && (Server(a, Active) in s <==> files != [] && Lists(files[|files| - 1], a))
            && (Server(a, Static) in s <==> a in builtin && !Ever(files, a))
  {
    RunKeeps(builtin, files);
    EverIs(files, a);
    var s := Run(builtin, files);
    assert a in Last(files) <==> files != [] && Lists(files[|files| - 1], a);
    if a in Last(files) || (a in builtin && !Ever(files, a)) {
      var k :| 0 <= k < |s| && s[k].addr == a;
      assert s[k] in s;
    }
  }

  /** A built-in server that was listed once and then dropped is gone, unlike one never listed:
      being listed costs it the static mark. */
  lemma ListedBuiltinsAreLost(builtin: seq<Address>, files: seq<File>, a: Address)
    requires Distinct(builtin) && a in builtin && files != [] && Ever(files, a) && !Lists(files[|files| - 1], a)
    ensures !Present(Run(builtin, files), a)
  {
    RunKeeps(builtin, files);
    EverIs(files, a);
  }

  // ---------------------------------------------------------------- in place

  lemma SweepOne(s: seq<Server>, n: nat)
    requires n < |s|
    ensures Sweep(s[..n + 1]) == if s[n].mark == Delete then Sweep(s[..n]) else Sweep(s[..n]) + [s[n]]
  {
    assert s[..n + 1][..n] == s[..n];
  }

  /** The walk over the list: marked entries are left out, the others stay in order. */
  method Unmarked(s: seq<Server>) returns (kept: seq<Server>)
    ensures kept == Sweep(s)
  {
    kept := [];
    for n := 0 to |s|
      invariant kept == Sweep(s[..n])
    {
      SweepOne(s, n);
      if s[n].mark != Delete {
        kept := kept + [s[n]];
      }
    }
    assert s[..|s|] == s;
  }

  /** Server marks and the list itself, updated in place. */
  class Servers {
    var list: seq<Server>

    /** neat_resolver_add_initial_servers. */
    constructor ()
      ensures list == Initial(BUILTIN) && NoRepeats(list)
    {
      var s: seq<Server> := [];
      for i := 0 to |BUILTIN|
        invariant s == Initial(BUILTIN[..i])
      {
        assert BUILTIN[..i + 1][..i] == BUILTIN[..i];
        s := [Server(BUILTIN[i], Static)] + s;
      }
      assert BUILTIN[..|BUILTIN|] == BUILTIN;
      list := s;
    }

    /** nt_resolver_reset_mark. */
    method ResetMarks()
      modifies this
      ensures list == Reset(old(list))
    {
      var k := 0;
      while k < |list|
        invariant k <= |list| == |old(list)|
        invariant forall j :: 0 <= j < k ==> list[j] == Reset(old(list))[j]
        invariant forall j :: k <= j < |list| ==> list[j] == old(list)[j]
      {
        if list[k].mark != Static {
          list := list[k := list[k].(mark := Delete)];
        }
        k := k + 1;
      }
    }

    /** nt_resolver_resolv_check_addr. */
    method CheckAddress(a: Address)
      requires NoRepeats(list)
      modifies this
      ensures list == Check(old(list), a)
    {
      var k := 0;
      while k < |list|
        invariant k <= |list|
        invariant list == old(list)
        invariant forall j :: 0 <= j < k ==> list[j].addr != a
      {
        if list[k].addr == a {
          MarkFirstAt(list, a, k);
          list := list[k := list[k].(mark := Active)];
          return;
        }
        k := k + 1;
      }
      list := [Server(a, Active)] + list;
    }

    /** nt_resolver_delete_servers. */
    method DeleteServers()
      modifies this
      ensures list == Sweep(old(list))
    {
      list := Unmarked(list);
    }

    /** nt_resolver_resolv_conf_updated, once the file could be opened. */
    method Updated(f: File)
      requires NoRepeats(list)
      modifies this
      ensures list == Update(old(list), f) && NoRepeats(list)
    {
      ResetMarks();
      ghost var s := list;
      for i := 0 to |f|
        invariant list == ReadLines(s, f[..i]) && NoRepeats(list)
      {
        assert f[..i + 1][..i] == f[..i];
        if f[i].Some? {
          CheckNoRepeats(list, f[i].value);
          CheckAddress(f[i].value);
        }
      }
      assert f[..|f|] == f;
      SweepNoRepeats(list);
      DeleteServers();
    }
  }

  lemma CheckNoRepeats(s: seq<Server>, a: Address)
    requires NoRepeats(s)
    ensures NoRepeats(Check(s, a))
  {
    if Present(s, a) {
      var at :| 0 <= at < |s| && s[at].addr == a;
      MarkFirstAt(s, a, at);
      var r := s[at := s[at].(mark := Active)];
      assert forall k :: 0 <= k < |s| ==> r[k].addr == s[k].addr;
    } else {
      var r := [Server(a, Active)] + s;
      assert forall k :: 1 <= k < |r| ==> r[k] == s[k - 1];
    }
  }
}
