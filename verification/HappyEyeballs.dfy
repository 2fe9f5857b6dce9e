/**
 The Happy-Eyeballs race: every candidate gets a staggered timer, a connection attempt and at
 most one verdict; the first success becomes the flow's socket. Timers, failures and
 completions arrive in any order.
 */
module HappyEyeballs {
  import opened Types

  /** Dropped candidates failed, or connected after the race was decided. A candidate whose
      error status could not be read is Broken: its handle is closed but it stays counted. */
  datatype Status = Waiting | Connecting | Dropped | Winner | Broken

  datatype Report = AllFailed | Internal

  /** `first` is hefirstConnect, `pending` firstWritePending, `count` the 8-bit attempt counter. */
  datatype State = State(
    cands: seq<Status>,
    first: bool,
    pending: bool,
    count: nat,
    socket: Option<nat>,
    reports: seq<Report>)

  /** What getsockopt(SO_ERROR) says when a connecting handle becomes ready; a successful MPTCP
      candidate is turned down when the system has MPTCP disabled. */
  datatype Outcome = Unreadable | Refused | Connected(turnedDown: bool)

  /** `cleared` says whether the poll callback run inside the step saw a writable socket. */
  datatype Event =
    | Timer(i: nat, started: bool)
    | Ready(i: nat, outcome: Outcome, cleared: bool)
    | Poll(cleared: bool)

  // ---------------------------------------------------------------- the 8-bit counter

  /** What a uint8_t holds after counting up to `n`. */
  function Wrap(n: nat): (r: nat)
    ensures r < 256
    ensures n < 256 ==> r == n
  {
    if n < 256 then n else Wrap(n - 256)
  }

  function Increment(c: nat): nat { if c == 255 then 0 else c + 1 }

  function Decrement(c: nat): nat { if c == 0 then 255 else c - 1 }

  lemma {:induction false} WrapStep(n: nat)
    ensures Wrap(n + 1) == Increment(Wrap(n))
    ensures Wrap(n) == Decrement(Wrap(n + 1))
  {
    if n >= 256 {
      WrapStep(n - 256);
    }
  }

  // ---------------------------------------------------------------- steps

  /** Gives up candidate `i`; the counter is a uint8_t and reaching zero reports total failure. */
  function Drop(s: State, i: nat): State
    requires i < |s.cands|
  {
    var count := Decrement(s.count);
    s.(cands := s.cands[i := Dropped], count := count,
       reports := if count == 0 then s.reports + [AllFailed] else s.reports)
  }

  /** on_he_connect_req. */
  function OnTimer(s: State, i: nat, started: bool): State
    requires i < |s.cands|
  {
    if started then s.(cands := s.cands[i := Connecting]) else Drop(s, i)
  }

  /** he_connected_cb. */
  function OnReady(s: State, i: nat, outcome: Outcome, cleared: bool): State
    requires i < |s.cands|
  {
    if outcome == Unreadable then
      s.(cands := s.cands[i := Broken], reports := s.reports + [Internal])
    else if s.pending then
      s.(pending := !cleared)
    else if s.first && outcome.Connected? then
      if outcome.turnedDown then Drop(s, i)
      else s.(cands := s.cands[i := Winner], first := false, socket := Some(i), pending := !cleared)
    else Drop(s, i)
  }

  /** Events a candidate cannot receive in its status do nothing. */
  function Step(s: State, e: Event): State {
    match e
    case Timer(i, started) =>
      if i < |s.cands| && s.cands[i] == Waiting then OnTimer(s, i, started) else s
    case Ready(i, outcome, cleared) =>
      if i < |s.cands| && s.cands[i] == Connecting then OnReady(s, i, outcome, cleared) else s
    case Poll(cleared) => s.(pending := s.pending && !cleared)
  }

  /** The state nt_he_open leaves behind for `n` candidates. */
  function Opened(n: nat): State {
    State(seq(n, _ => Waiting), true, false, Wrap(n), None, [])
  }

  function Run(n: nat, events: seq<Event>): State {
    if events == [] then Opened(n)
    else Step(Run(n, events[..|events| - 1]), events[|events| - 1])
  }

  // ---------------------------------------------------------------- the invariant

  /** How many candidates were given up. */
  function Failures(c: seq<Status>): (r: nat)
    ensures r <= |c|
  {
    if c == [] then 0
    else Failures(c[..|c| - 1]) + if c[|c| - 1] == Dropped then 1 else 0
  }

  ghost function AllFailedReports(r: seq<Report>): nat {
    if r == [] then 0
    else AllFailedReports(r[..|r| - 1]) + if r[|r| - 1] == AllFailed then 1 else 0
  }

  lemma ReportsSnoc(r: seq<Report>, x: Report)
    ensures AllFailedReports(r + [x]) == AllFailedReports(r) + if x == AllFailed then 1 else 0
  {
    assert (r + [x])[..|r|] == r;
  }

  /** The counter is the number of candidates not given up, modulo its width, and the flow's
      socket is the one winner. */
  ghost predicate Inv(n: nat, s: State) {
    && |s.cands| == n
    && s.count == Wrap(n - Failures(s.cands))
    && (s.first <==> s.socket == None)
    && (s.pending ==> s.socket.Some?)
    && (forall i :: 0 <= i < n ==> (s.cands[i] == Winner <==> s.socket == Some(i)))
    && (s.socket.Some? ==> s.socket.value < n)
  }

  /** Total failure is reported once exactly when every candidate was given up. */
  ghost predicate Exact(n: nat, s: State) {
    AllFailedReports(s.reports) == if n > 0 && Failures(s.cands) == n then 1 else 0
  }

  lemma {:induction false} FailuresUpdate(c: seq<Status>, i: nat, x: Status)
    requires i < |c| && c[i] != Dropped
    ensures Failures(c[i := x]) == Failures(c) + if x == Dropped then 1 else 0
  {
    var n := |c| - 1;
    if i == n {
      assert c[i := x][..n] == c[..n];
    } else {
      assert c[i := x][..n] == c[..n][i := x];
      FailuresUpdate(c[..n], i, x);
    }
  }

  /** All candidates are given up exactly when as many were given up as there are. */
  lemma {:induction false} FailuresAll(c: seq<Status>)
    ensures Failures(c) == |c| <==> forall i :: 0 <= i < |c| ==> c[i] == Dropped
  {
    if c != [] {
      var n := |c| - 1;
      FailuresAll(c[..n]);
      assert forall i :: 0 <= i < n ==> c[i] == c[..n][i];
    }
  }

  lemma DropKeeps(n: nat, s: State, i: nat)
    requires Inv(n, s) && i < n && s.cands[i] in {Waiting, Connecting}
    ensures Inv(n, Drop(s, i))
    ensures n <= 256 && Exact(n, s) ==> Exact(n, Drop(s, i))
  {
    FailuresUpdate(s.cands, i, Dropped);
    WrapStep(n - Failures(s.cands) - 1);
    ReportsSnoc(s.reports, AllFailed);
  }

  /** Changing the status of a candidate without giving it up. */
  lemma MarkKeeps(n: nat, s: State, i: nat, x: Status)
    requires Inv(n, s) && i < n && s.cands[i] in {Waiting, Connecting} && x in {Connecting, Broken}
    ensures Inv(n, s.(cands := s.cands[i := x]))
    ensures Exact(n, s) ==> Exact(n, s.(cands := s.cands[i := x]))
  {
    FailuresUpdate(s.cands, i, x);
  }

  lemma WinKeeps(n: nat, s: State, i: nat, cleared: bool)
    requires Inv(n, s) && i < n && s.cands[i] == Connecting && s.first
    ensures var s' := s.(cands := s.cands[i := Winner], first := false, socket := Some(i), pending := !cleared);
            Inv(n, s') && (Exact(n, s) ==> Exact(n, s'))
  {
    FailuresUpdate(s.cands, i, Winner);
  }

  lemma BreakKeeps(n: nat, s: State, i: nat)
    requires Inv(n, s) && i < n && s.cands[i] == Connecting
    ensures var s' := s.(cands := s.cands[i := Broken], reports := s.reports + [Internal]);
            Inv(n, s') && (Exact(n, s) ==> Exact(n, s'))
  {
    var s1 := s.(cands := s.cands[i := Broken]);
    MarkKeeps(n, s, i, Broken);
    assert AllFailedReports(s1.reports + [Internal]) == AllFailedReports(s1.reports) by {
      ReportsSnoc(s1.reports, Internal);
    }
  }

  lemma ReadyKeeps(n: nat, s: State, i: nat, outcome: Outcome, cleared: bool)
    requires Inv(n, s) && i < n && s.cands[i] == Connecting
    ensures var s' := OnReady(s, i, outcome, cleared);
            Inv(n, s') && (n <= 256 && Exact(n, s) ==> Exact(n, s'))
  {
    if outcome == Unreadable {
      BreakKeeps(n, s, i);
    } else if s.pending {
    } else if s.first && outcome == Connected(false) {
      WinKeeps(n, s, i, cleared);
    } else {
      DropKeeps(n, s, i);
    }
  }

  lemma StepKeeps(n: nat, s: State, e: Event)
    requires Inv(n, s)
    ensures Inv(n, Step(s, e))
    ensures n <= 256 && Exact(n, s) ==> Exact(n, Step(s, e))
  {
    match e
    case Timer(i, started) =>
      if i < n && s.cands[i] == Waiting {
        if started { MarkKeeps(n, s, i, Connecting); } else { DropKeeps(n, s, i); }
      }
    case Ready(i, outcome, cleared) =>
      if i < n && s.cands[i] == Connecting { ReadyKeeps(n, s, i, outcome, cleared); }
    case Poll(_) =>
  }

  lemma {:induction false} WaitingRun(n: nat)
    ensures Failures(Opened(n).cands) == 0
  {
    if n > 0 {
      WaitingRun(n - 1);
      assert Opened(n).cands[..n - 1] == Opened(n - 1).cands;
    }
  }

  lemma {:induction false} RunKeeps(n: nat, events: seq<Event>)
    ensures Inv(n, Run(n, events))
    ensures n <= 256 ==> Exact(n, Run(n, events))
    decreases |events|
  {
    if events == [] {
      WaitingRun(n);
    } else {
      RunKeeps(n, events[..|events| - 1]);
      StepKeeps(n, Run(n, events[..|events| - 1]), events[|events| - 1]);
    }
  }

  // ---------------------------------------------------------------- theorems

  /** In every interleaving at most one candidate wins, it is the flow's socket, and the counter
      is the number of candidates not given up. */
  lemma OneWinner(n: nat, events: seq<Event>)
    ensures var s := Run(n, events);
            && |s.cands| == n
            && (forall i, j :: 0 <= i < n && 0 <= j < n && s.cands[i] == Winner && s.cands[j] == Winner ==> i == j)
            && (forall i :: 0 <= i < n ==> (s.cands[i] == Winner <==> s.socket == Some(i)))
            && (n <= 255 ==> s.count == n - Failures(s.cands))
  {
    RunKeeps(n, events);
  }

  /** A decided race stays decided. */
  lemma WinnerIsFinal(n: nat, events: seq<Event>, e: Event)
    ensures Run(n, events).socket.Some? ==> Run(n, events + [e]).socket == Run(n, events).socket
  {
    RunKeeps(n, events);
    assert (events + [e])[..|events|] == events;
  }

  /** While the race is open, the first candidate to connect wins it. */
  lemma FirstSuccessWins(n: nat, events: seq<Event>, i: nat, cleared: bool)
    requires i < |Run(n, events).cands| && Run(n, events).cands[i] == Connecting
    requires Run(n, events).socket == None
    ensures Run(n, events + [Ready(i, Connected(false), cleared)]).socket == Some(i)
  {
    RunKeeps(n, events);
    var e := Ready(i, Connected(false), cleared);
    assert (events + [e])[..|events|] == events;
  }

  /** Up to 256 candidates: total failure is reported once if all were given up, and never
      otherwise, in particular never once there is a winner. */
  lemma FailureReport(n: nat, events: seq<Event>)
    requires n <= 256
    ensures var s := Run(n, events);
            && Exact(n, s)
            && (s.socket.Some? ==> AllFailedReports(s.reports) == 0)
  {
    RunKeeps(n, events);
    FailuresAll(Run(n, events).cands);
  }

  /** The first `k` timers fire and every attempt fails at once. */
  function FailFirst(k: nat): seq<Event> {
    seq(k, (i: nat) => Timer(i, false))
  }

  /** After these failures the others still wait, and the counter has come down accordingly. */
  ghost predicate FailedFirst(n: nat, k: nat, s: State)
    requires k <= n
  {
    && |s.cands| == n
    && (forall i :: k <= i < n ==> s.cands[i] == Waiting)
    && s.count == Wrap(n - k)
    && (k > 0 && s.count == 0 ==> AllFailedReports(s.reports) > 0)
  }

  lemma FailOneMore(n: nat, k: nat, s: State)
    requires k < n && FailedFirst(n, k, s)
    ensures FailedFirst(n, k + 1, Drop(s, k)) && Step(s, Timer(k, false)) == Drop(s, k)
  {
    WrapStep(n - k - 1);
    ReportsSnoc(s.reports, AllFailed);
  }

  lemma {:induction false} FailFirstRun(n: nat, k: nat)
    requires k <= n
    ensures FailedFirst(n, k, Run(n, FailFirst(k)))
  {
    if k > 0 {
      var k' := k - 1;
      FailFirstRun(n, k');
      assert FailFirst(k)[..k'] == FailFirst(k') && FailFirst(k)[k'] == Timer(k', false);
      FailOneMore(n, k', Run(n, FailFirst(k')));
    }
  }

  /** After this many failures the counter of `n` candidates first reads zero. */
  lemma {:induction false} FullTurn(n: nat) returns (k: nat)
    requires n > 256
    ensures 0 < k < n && Wrap(n - k) == 0
  {
    if n <= 512 { k := n - 256; } else { k := FullTurn(n - 256); }
  }

  /** Beyond 256 candidates a report comes while candidates are still waiting. */
  lemma EarlyReport(n: nat)
    requires n > 256
    ensures exists events :: Premature(n, Run(n, events))
  {
    var k := FullTurn(n);
    var s := Run(n, FailFirst(k));
    FailFirstRun(n, k);
    assert s.cands[k] == Waiting;
    assert Premature(n, s);
  }

  /** Total failure was reported while some candidate still waits for its timer. */
  ghost predicate Premature(n: nat, s: State) {
    AllFailedReports(s.reports) > 0 && |s.cands| == n && exists i :: 0 <= i < n && s.cands[i] == Waiting
  }

  /** The report is exact in every run if and only if the counter does not lose a whole turn. */
  lemma ReportExactIff(n: nat)
    ensures (forall events :: Exact(n, Run(n, events))) <==> n <= 256
  {
    if n <= 256 {
      forall events ensures Exact(n, Run(n, events)) { RunKeeps(n, events); }
    } else {
      EarlyReport(n);
      var events :| Premature(n, Run(n, events));
      FailuresAll(Run(n, events).cands);
      assert !Exact(n, Run(n, events));
    }
  }
}
