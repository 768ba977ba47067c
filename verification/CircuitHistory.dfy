/**
  The shared upstream circuit as a function of what was reported to it: the streak of overloads,
  the share of overloads in the window, until when it is open, and the one probe that may be out.
*/
module CircuitHistory {
  import opened Options

  datatype Config = Config(threshold: int, window: int, percent: int, cooldown: int)

  /** What the configuration loader accepts. */
  predicate Accepted(cfg: Config) {
    cfg.threshold > 0 && cfg.window > 0 && cfg.cooldown > 0 && 1 <= cfg.percent <= 100
  }

  const MIN_SAMPLE := 10

  datatype Kind = Overload | Success | Reopen

  datatype Event = Event(at: int, kind: Kind)

  // ---- Reading a history ---------------------------------------------------------------------

  /** How long the state key lives after a report. */
  function StateLife(cfg: Config, kind: Kind): int {
    if kind == Success then 2 * cfg.window else 2 * cfg.cooldown
  }

  function Last(h: seq<Event>): Event
    requires h != []
  {
    h[|h| - 1]
  }

  function Before(h: seq<Event>): seq<Event>
    requires h != []
  {
    h[..|h| - 1]
  }

  /** The state key still exists. */
  predicate Alive(cfg: Config, h: seq<Event>, now: int) {
    h != [] && now <= Last(h).at + StateLife(cfg, Last(h).kind)
  }

  function Streak(cfg: Config, h: seq<Event>): nat {
    if h == [] then 0
    else
      var kept := if Alive(cfg, Before(h), Last(h).at) then Streak(cfg, Before(h)) else 0;
      match Last(h).kind
      case Overload => kept + 1
      case Success => 0
      case Reopen => kept
  }

  /** The reports that count as outcomes, and those that were overloads, by position. */
  function Outcomes(h: seq<Event>): map<nat, int> {
    if h == [] then map[]
    else if Last(h).kind == Reopen then Outcomes(Before(h))
    else Outcomes(Before(h))[|h| - 1 := Last(h).at]
  }

  function Failures(h: seq<Event>): map<nat, int> {
    if h == [] then map[]
    else if Last(h).kind == Overload then Failures(Before(h))[|h| - 1 := Last(h).at]
    else Failures(Before(h))
  }

  predicate MarksThose(marks: map<nat, int>, h: seq<Event>, reopenings: bool, successes: bool) {
    && (forall i <- marks :: i < |h| && marks[i] == h[i].at)
    && (forall i: nat | i < |h| :: i in marks <==> (h[i].kind == Reopen ==> reopenings) && (h[i].kind == Success ==> successes))
  }

  /** The marks are exactly the outcomes, and exactly the overloads, at their times. */
  lemma {:induction false} MarksAreReports(h: seq<Event>)
    ensures MarksThose(Outcomes(h), h, false, true) && MarksThose(Failures(h), h, false, false)
    decreases |h|
  {
    if h != [] {
      MarksAreReports(Before(h));
    }
  }

  function InWindow(cfg: Config, marks: map<nat, int>, now: int): set<nat> {
    set i <- marks | marks[i] + cfg.window > now
  }

  predicate TooManyFailures(cfg: Config, h: seq<Event>, now: int) {
    var total, failed := |InWindow(cfg, Outcomes(h), now)|, |InWindow(cfg, Failures(h), now)|;
    total >= MIN_SAMPLE && failed * 100 >= total * cfg.percent
  }

  /** The last report was an overload that opened the circuit. */
  predicate Trips(cfg: Config, h: seq<Event>) {
    h != [] && Last(h).kind == Overload
    && (Streak(cfg, h) >= cfg.threshold || TooManyFailures(cfg, h, Last(h).at))
  }

  /** Until when the circuit is open, as far as the state key remembers at the last report. */
  function OpenUntil(cfg: Config, h: seq<Event>): Option<int> {
    if h == [] then None
    else if Trips(cfg, h) || Last(h).kind == Reopen then Some(Last(h).at + cfg.cooldown)
    else if Alive(cfg, Before(h), Last(h).at) then OpenUntil(cfg, Before(h))
    else None
  }

  // ---- The streak, without recursion ---------------------------------------------------------

  /** From position i on there is no success, and the state key never lapsed between two reports. */
  predicate Unbroken(cfg: Config, h: seq<Event>, i: nat) {
    && i <= |h|
    && (forall j | i <= j < |h| :: h[j].kind != Success)
    && (forall j | i < j < |h| :: h[j].at <= h[j - 1].at + StateLife(cfg, h[j - 1].kind))
  }

  function OverloadsFrom(h: seq<Event>, i: nat): nat
    requires i <= |h|
    decreases |h| - i
  {
    if i == |h| then 0 else (if h[i].kind == Overload then 1 else 0) + OverloadsFrom(h, i + 1)
  }

  function StreakStart(cfg: Config, h: seq<Event>): (i: nat)
    ensures i <= |h|
  {
    if h == [] then 0
    else if Last(h).kind == Success then |h|
    else if Alive(cfg, Before(h), Last(h).at) then StreakStart(cfg, Before(h))
    else |h| - 1
  }

  lemma {:induction false} UnbrokenFromStart(cfg: Config, h: seq<Event>, i: nat)
    requires i <= |h|
    ensures Unbroken(cfg, h, i) <==> i >= StreakStart(cfg, h)
    decreases |h|
  {
    if h != [] && i < |h| {
      UnbrokenFromStart(cfg, Before(h), i);
    }
  }

  lemma {:induction false} OverloadsSplit(h: seq<Event>, e: Event, i: nat)
    requires i <= |h|
    ensures OverloadsFrom(h + [e], i) == OverloadsFrom(h, i) + if e.kind == Overload then 1 else 0
    decreases |h| - i
  {
    if i < |h| {
      OverloadsSplit(h, e, i + 1);
    }
  }

  lemma {:induction false} StreakCountsFromStart(cfg: Config, h: seq<Event>)
    ensures Streak(cfg, h) == OverloadsFrom(h, StreakStart(cfg, h))
    decreases |h|
  {
    if h != [] {
      StreakCountsFromStart(cfg, Before(h));
      assert h == Before(h) + [Last(h)];
      OverloadsSplit(Before(h), Last(h), StreakStart(cfg, Before(h)));
      OverloadsSplit(Before(h), Last(h), |h| - 1);
    }
  }

  lemma {:induction false} FewerFromLater(h: seq<Event>, i: nat, j: nat)
    requires i <= j <= |h|
    ensures OverloadsFrom(h, j) <= OverloadsFrom(h, i)
    decreases j - i
  {
    if i < j {
      FewerFromLater(h, i + 1, j);
    }
  }

  /** The streak reaches n exactly when some unbroken end of the history holds n overloads. */
  lemma StreakReachesExactlyWhen(cfg: Config, h: seq<Event>, n: nat)
    ensures Streak(cfg, h) >= n <==> exists i: nat :: Unbroken(cfg, h, i) && OverloadsFrom(h, i) >= n
  {
    var start := StreakStart(cfg, h);
    StreakCountsFromStart(cfg, h);
    UnbrokenFromStart(cfg, h, start);
    forall i: nat | Unbroken(cfg, h, i) ensures OverloadsFrom(h, i) <= Streak(cfg, h) {
      UnbrokenFromStart(cfg, h, i);
      FewerFromLater(h, start, i);
    }
  }

  // ---- What trips the circuit, by the events themselves ---------------------------------------

  /** An event of this kind happened less than a window before the last one. */
  predicate Recent(cfg: Config, h: seq<Event>, i: nat)
    requires i < |h|
  {
    Last(h).at - h[i].at < cfg.window
  }

  function RecentOverloads(cfg: Config, h: seq<Event>): set<nat> {
    set i: nat | i < |h| && Recent(cfg, h, i) && h[i].kind == Overload
  }

  function RecentSuccesses(cfg: Config, h: seq<Event>): set<nat> {
    set i: nat | i < |h| && Recent(cfg, h, i) && h[i].kind == Success
  }

  /** At least ten recent overloads and successes, and the overloads are at least the percentage of them. */
  predicate ShareReached(cfg: Config, h: seq<Event>) {
    var bad, good := |RecentOverloads(cfg, h)|, |RecentSuccesses(cfg, h)|;
    bad + good >= 10 && (100 - cfg.percent) * bad >= cfg.percent * good
  }

  ghost predicate StreakReached(cfg: Config, h: seq<Event>) {
    exists i: nat :: Unbroken(cfg, h, i) && OverloadsFrom(h, i) >= cfg.threshold
  }

  lemma WindowsByKind(cfg: Config, h: seq<Event>)
    requires h != []
    ensures var now := Last(h).at;
            && InWindow(cfg, Failures(h), now) == RecentOverloads(cfg, h)
            && |InWindow(cfg, Outcomes(h), now)| == |RecentOverloads(cfg, h)| + |RecentSuccesses(cfg, h)|
  {
    var bad, good := RecentOverloads(cfg, h), RecentSuccesses(cfg, h);
    MarksAreReports(h);
    assert InWindow(cfg, Failures(h), Last(h).at) == bad;
    assert InWindow(cfg, Outcomes(h), Last(h).at) == bad + good;
    assert bad * good == {};
  }

  /** An overload trips the circuit exactly when the streak or the share of recent overloads is reached. */
  lemma TripsExactlyWhen(cfg: Config, h: seq<Event>)
    ensures Trips(cfg, h) <==> h != [] && Last(h).kind == Overload && (StreakReached(cfg, h) || ShareReached(cfg, h))
  {
    StreakReachesExactlyWhen(cfg, h, if cfg.threshold < 0 then 0 else cfg.threshold);
    UnbrokenFromStart(cfg, h, |h|);
    if h != [] {
      WindowsByKind(cfg, h);
    }
  }

  lemma {:induction false} SameTailSameOverloads(a: seq<Event>, b: seq<Event>, i: nat)
    requires i <= |a| == |b| && a[i..] == b[i..]
    ensures OverloadsFrom(a, i) == OverloadsFrom(b, i)
    decreases |a| - i
  {
    if i < |a| {
      assert a[i] == a[i..][0] && b[i] == b[i..][0];
      assert a[i + 1..] == a[i..][1..] && b[i + 1..] == b[i..][1..];
      SameTailSameOverloads(a, b, i + 1);
    }
  }

  /** Had a success been an overload, what tripped would have tripped all the same. */
  lemma WorseHistoriesTripToo(cfg: Config, h: seq<Event>, i: nat)
    requires Accepted(cfg) && Trips(cfg, h) && i < |h| && h[i].kind == Success
    ensures Trips(cfg, h[i := Event(h[i].at, Overload)])
  {
    var worse := h[i := Event(h[i].at, Overload)];
    TripsExactlyWhen(cfg, h);
    TripsExactlyWhen(cfg, worse);
    if StreakReached(cfg, h) {
      var start: nat :| Unbroken(cfg, h, start) && OverloadsFrom(h, start) >= cfg.threshold;
      assert start > i;
      assert worse[start..] == h[start..];
      SameTailSameOverloads(h, worse, start);
      assert Unbroken(cfg, worse, start);
    } else {
      OneWorse(cfg, h, i);
    }
  }

  lemma OneWorse(cfg: Config, h: seq<Event>, i: nat)
    requires Accepted(cfg) && i < |h| && h[i].kind == Success && ShareReached(cfg, h)
    ensures ShareReached(cfg, h[i := Event(h[i].at, Overload)])
  {
    var worse := h[i := Event(h[i].at, Overload)];
    assert Last(worse).at == Last(h).at;
    if Recent(cfg, h, i) {
      assert RecentOverloads(cfg, worse) == RecentOverloads(cfg, h) + {i};
      assert RecentSuccesses(cfg, worse) == RecentSuccesses(cfg, h) - {i};
    } else {
      assert RecentOverloads(cfg, worse) == RecentOverloads(cfg, h);
      assert RecentSuccesses(cfg, worse) == RecentSuccesses(cfg, h);
    }
  }

  /** Ten recent overloads and no recent success trip at every accepted setting. */
  lemma OverloadsAloneTrip(cfg: Config, h: seq<Event>)
    requires Accepted(cfg) && h != [] && Last(h).kind == Overload
    requires |RecentOverloads(cfg, h)| >= 10 && RecentSuccesses(cfg, h) == {}
    ensures Trips(cfg, h)
  {
    TripsExactlyWhen(cfg, h);
  }

  /** Few reports, or a share below the percentage, never trip without the streak. */
  lemma SmallSharesNeverTrip(cfg: Config, h: seq<Event>)
    requires !StreakReached(cfg, h)
    requires var bad, good := |RecentOverloads(cfg, h)|, |RecentSuccesses(cfg, h)|;
             bad + good < 10 || bad * 100 < cfg.percent * (bad + good)
    ensures !Trips(cfg, h)
  {
    TripsExactlyWhen(cfg, h);
  }

  // ---- The circuit as a machine --------------------------------------------------------------

  /** The history since the last full reset, the probe's deadline, and the clock. */
  datatype Circuit = Circuit(h: seq<Event>, probe: Option<int>, now: int)

  datatype Op = RecordOverload | RecordSuccess | ReopenNow | Allow | Advance(elapsed: nat)

  predicate ProbeOut(c: Circuit) {
    c.probe.Some? && c.now <= c.probe.value
  }

  /** What the state key says now. */
  function Until(cfg: Config, c: Circuit): Option<int> {
    if Alive(cfg, c.h, c.now) then OpenUntil(cfg, c.h) else None
  }

  predicate Admits(cfg: Config, c: Circuit) {
    Until(cfg, c).None? || (Until(cfg, c).value <= c.now && !ProbeOut(c))
  }

  function Reported(c: Circuit, kind: Kind): seq<Event> {
    c.h + [Event(c.now, kind)]
  }

  function Apply(cfg: Config, c: Circuit, op: Op): Circuit {
    match op
    case RecordOverload =>
      c.(h := Reported(c, Overload), probe := if Trips(cfg, Reported(c, Overload)) then None else c.probe)
    case RecordSuccess =>
      if ProbeOut(c) then c.(h := [], probe := None) else c.(h := Reported(c, Success))
    case ReopenNow => c.(h := Reported(c, Reopen), probe := None)
    case Allow =>
      if Until(cfg, c).Some? && Admits(cfg, c) then c.(probe := Some(c.now + cfg.cooldown)) else c
    case Advance(elapsed) => c.(now := c.now + elapsed)
  }

  function Run(cfg: Config, c: Circuit, ops: seq<Op>): Circuit {
    if ops == [] then c else Apply(cfg, Run(cfg, c, ops[..|ops| - 1]), ops[|ops| - 1])
  }

  function Closed(now: int): Circuit {
    Circuit([], None, now)
  }

  /** The last operation opened the circuit, just now. */
  predicate JustOpened(cfg: Config, c: Circuit) {
    c.h != [] && Last(c.h).at == c.now && c.probe.None? && (Trips(cfg, c.h) || Last(c.h).kind == Reopen)
  }

  /** Both causes of opening leave the circuit just opened. */
  lemma WhatOpens(cfg: Config, c: Circuit)
    ensures JustOpened(cfg, Apply(cfg, c, ReopenNow))
    ensures Trips(cfg, Reported(c, Overload)) ==> JustOpened(cfg, Apply(cfg, c, RecordOverload))
  {
  }

  // ---- Nobody passes while it is open --------------------------------------------------------

  /** Until u at least: remembered, not yet over, and no probe was let out. */
  ghost predicate ShutUntil(cfg: Config, c: Circuit, u: int) {
    c.now < u ==>
      && c.h != [] && OpenUntil(cfg, c.h).Some? && OpenUntil(cfg, c.h).value >= u
      && Last(c.h).at + StateLife(cfg, Last(c.h).kind) >= u - 1
      && c.probe.None?
  }

  lemma ShutStays(cfg: Config, c: Circuit, u: int, op: Op)
    requires Accepted(cfg) && 2 * cfg.window + 1 >= cfg.cooldown
    requires ShutUntil(cfg, c, u) && u <= c.now + cfg.cooldown
    ensures ShutUntil(cfg, Apply(cfg, c, op), u)
  {
    if c.now < u {
      assert Alive(cfg, c.h, c.now);
      match op
      case RecordOverload => assert Before(Reported(c, Overload)) == c.h;
      case RecordSuccess => assert Before(Reported(c, Success)) == c.h;
      case _ =>
    }
  }

  lemma {:induction false} ShutWhileRunning(cfg: Config, c: Circuit, u: int, ops: seq<Op>)
    requires Accepted(cfg) && 2 * cfg.window + 1 >= cfg.cooldown
    requires ShutUntil(cfg, c, u) && u <= c.now + cfg.cooldown
    ensures ShutUntil(cfg, Run(cfg, c, ops), u) && c.now <= Run(cfg, c, ops).now
    decreases |ops|
  {
    if ops != [] {
      ShutWhileRunning(cfg, c, u, ops[..|ops| - 1]);
      ShutStays(cfg, Run(cfg, c, ops[..|ops| - 1]), u, ops[|ops| - 1]);
    }
  }

  /** Somewhere in some run a request would be admitted less than a cooldown after an opening. */
  ghost predicate CanAdmitEarly(cfg: Config) {
    exists c: Circuit, ops: seq<Op> :: AdmitsEarly(cfg, c, ops)
  }

  predicate AdmitsEarly(cfg: Config, c: Circuit, ops: seq<Op>) {
    JustOpened(cfg, c) && Run(cfg, c, ops).now < c.now + cfg.cooldown && Admits(cfg, Run(cfg, c, ops))
  }

  /**
    The cooldown is kept, whatever is reported in the meantime, exactly when two windows cover
    it: a success keeps the state key for two windows only, so with a longer cooldown a late
    success makes the circuit forget that it is open. The loader accepts such configurations.
  */
  lemma CooldownIsKeptExactlyWhen(cfg: Config)
    requires Accepted(cfg)
    ensures !CanAdmitEarly(cfg) <==> 2 * cfg.window + 1 >= cfg.cooldown
  {
    if 2 * cfg.window + 1 >= cfg.cooldown {
      forall c: Circuit, ops: seq<Op> ensures !AdmitsEarly(cfg, c, ops) {
        if JustOpened(cfg, c) {
          ShutWhileRunning(cfg, c, c.now + cfg.cooldown, ops);
        }
      }
    } else {
      LateSuccessForgets(cfg);
    }
  }

  lemma LateSuccessForgets(cfg: Config)
    requires Accepted(cfg) && 2 * cfg.window + 1 < cfg.cooldown
    ensures AdmitsEarly(cfg, Apply(cfg, Closed(0), ReopenNow), [RecordSuccess, Advance(2 * cfg.window + 1)])
  {
    var c := Apply(cfg, Closed(0), ReopenNow);
    var ops := [RecordSuccess, Advance(2 * cfg.window + 1)];
    assert ops[..1] == [RecordSuccess] && [RecordSuccess][..0] == [];
    var c1 := Apply(cfg, c, RecordSuccess);
    assert Run(cfg, c, []) == c && Run(cfg, c, [RecordSuccess]) == c1;
    assert Last(c1.h) == Event(0, Success);
    assert Run(cfg, c, ops) == c1.(now := 2 * cfg.window + 1);
  }

  // ---- One probe, then the circuit forgets ---------------------------------------------------

  function Admissions(cfg: Config, c: Circuit, ops: seq<Op>): nat {
    if ops == [] then 0
    else
      var before := ops[..|ops| - 1];
      Admissions(cfg, c, before)
      + if ops[|ops| - 1] == Allow && Admits(cfg, Run(cfg, c, before)) then 1 else 0
  }

  predicate Unreported(ops: seq<Op>) {
    forall op <- ops :: op == Allow || op.Advance?
  }

  /** With no further report, at most one request passes up to two cooldowns after the opening. */
  lemma OneMoreQuietOp(cfg: Config, c: Circuit, t0: int, op: Op)
    requires Accepted(cfg) && c.h != [] && Last(c.h).at == t0 && (Trips(cfg, c.h) || Last(c.h).kind == Reopen)
    requires t0 <= c.now && (op == Allow || op.Advance?) && Apply(cfg, c, op).now <= t0 + 2 * cfg.cooldown
    ensures Apply(cfg, c, op).h == c.h && Apply(cfg, c, op).now >= t0
    ensures op == Allow && Admits(cfg, c) ==> !ProbeOut(c) && Apply(cfg, c, op).probe.Some?
                                              && Apply(cfg, c, op).probe.value >= t0 + 2 * cfg.cooldown
    ensures op != Allow || !Admits(cfg, c) ==> Apply(cfg, c, op).probe == c.probe
  {
    assert Alive(cfg, c.h, c.now) && OpenUntil(cfg, c.h) == Some(t0 + cfg.cooldown);
  }

  lemma {:induction false} OneProbeWithoutReports(cfg: Config, c: Circuit, ops: seq<Op>)
    requires Accepted(cfg) && JustOpened(cfg, c) && Unreported(ops)
    requires Run(cfg, c, ops).now <= c.now + 2 * cfg.cooldown
    ensures Admissions(cfg, c, ops) <= 1
    ensures var c' := Run(cfg, c, ops);
            && c'.h == c.h && c'.now >= c.now
            && (Admissions(cfg, c, ops) == 0 ==> c'.probe.None?)
            && (Admissions(cfg, c, ops) == 1 ==> c'.probe.Some? && c'.probe.value >= c.now + 2 * cfg.cooldown)
    decreases |ops|
  {
    if ops != [] {
      var before := ops[..|ops| - 1];
      assert forall op <- before :: op in ops;
      assert ops[|ops| - 1] in ops;
      OneProbeWithoutReports(cfg, c, before);
      OneMoreQuietOp(cfg, Run(cfg, c, before), c.now, ops[|ops| - 1]);
    }
  }

  /** After that the state key is gone and everybody passes, probe or no probe. */
  lemma UnreportedCircuitFallsOpen(cfg: Config, c: Circuit, ops: seq<Op>)
    requires Accepted(cfg) && JustOpened(cfg, c) && Unreported(ops)
    requires Run(cfg, c, ops).now > c.now + 2 * cfg.cooldown
    ensures Admits(cfg, Run(cfg, c, ops))
  {
    HistoryIsKept(cfg, c, ops);
  }

  lemma {:induction false} HistoryIsKept(cfg: Config, c: Circuit, ops: seq<Op>)
    requires Unreported(ops)
    ensures Run(cfg, c, ops).h == c.h
    decreases |ops|
  {
    if ops != [] {
      assert forall op <- ops[..|ops| - 1] :: op in ops;
      assert ops[|ops| - 1] in ops;
      HistoryIsKept(cfg, c, ops[..|ops| - 1]);
    }
  }
}
