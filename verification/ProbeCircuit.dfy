/**
  The in-process circuit a dispatcher falls back to when no shared circuit is configured: five
  overloads open it for thirty seconds, then one probe at a time may pass.

  The fields are tied to the log of everything that ever happened to the circuit, and what the
  circuit promises is proved about logs.
*/
module ProbeCircuit {
  import opened Options

  const SECOND := 1_000
  const COOLDOWN := 30 * SECOND
  const THRESHOLD := 5

  datatype Event =
    | Admitted(now: int)
    | Probed(now: int)
    | Overloaded(now: int)
    | Succeeded
    | Reopened(now: int)
    | Released

  // ---- What a log means ----------------------------------------------------------------------

  function Overloads(log: seq<Event>): nat {
    if log == [] then 0
    else
      var before := Overloads(log[..|log| - 1]);
      match log[|log| - 1]
      case Overloaded(_) => before + 1
      case Succeeded => 0
      case _ => before
  }

  /** The position of the probe that is still out. */
  function Holder(log: seq<Event>): Option<nat> {
    if log == [] then None
    else
      var before := Holder(log[..|log| - 1]);
      match log[|log| - 1]
      case Admitted(_) => before
      case Probed(_) => Some(|log| - 1)
      case Overloaded(_) => if Overloads(log) >= THRESHOLD then None else before
      case Succeeded => None
      case Reopened(_) => None
      case Released => None
  }

  /** Until when the circuit stays shut; None while it is closed. */
  function Until(log: seq<Event>): Option<int> {
    if log == [] then None
    else
      var before := Until(log[..|log| - 1]);
      match log[|log| - 1]
      case Overloaded(now) => if Overloads(log) >= THRESHOLD then Some(now + COOLDOWN) else before
      case Succeeded => None
      case Reopened(now) =>
        if Holder(log[..|log| - 1]).Some? then Some(now + COOLDOWN) else before
      case _ => before
  }

  /** The rule of admission: anyone while closed, one probe at a time once the shut period is over. */
  predicate Lawful(log: seq<Event>) {
    forall i | 0 <= i < |log| :: LawfulAt(log, i)
  }

  predicate LawfulAt(log: seq<Event>, i: nat)
    requires i < |log|
  {
    match log[i]
    case Admitted(_) => Until(log[..i]).None?
    case Probed(now) => Until(log[..i]).Some? && Until(log[..i]).value <= now && Holder(log[..i]).None?
    case _ => true
  }

  lemma LawfulPrefix(log: seq<Event>, n: nat)
    requires Lawful(log) && n <= |log|
    ensures Lawful(log[..n])
  {
    forall i | 0 <= i < n ensures LawfulAt(log[..n], i) {
      assert LawfulAt(log, i) && log[..n][..i] == log[..i];
    }
  }

  lemma LawfulAppend(log: seq<Event>, e: Event)
    requires Lawful(log)
    requires match e
             case Admitted(_) => Until(log).None?
             case Probed(now) => Until(log).Some? && Until(log).value <= now && Holder(log).None?
             case _ => true
    ensures Lawful(log + [e])
  {
    var longer := log + [e];
    forall i | 0 <= i < |longer| ensures LawfulAt(longer, i) {
      assert longer[..i] == log[..i] && log[..|log|] == log;
      assert i < |log| ==> LawfulAt(log, i);
    }
  }

  /** The overloads from place s on. */
  function OverloadsFrom(log: seq<Event>, s: nat): set<nat> {
    set i: nat | s <= i < |log| && log[i].Overloaded?
  }

  /** The last success, if there was one, is just before place s. */
  predicate NoSuccessFrom(log: seq<Event>, s: nat) {
    && s <= |log| && (s > 0 ==> log[s - 1].Succeeded?)
    && forall i | s <= i < |log| :: !log[i].Succeeded?
  }

  /** What is counted are the overloads since the last success, and a success starts anew. */
  lemma {:induction false} CountsSinceSuccess(log: seq<Event>, s: nat)
    requires NoSuccessFrom(log, s)
    ensures Overloads(log) == |OverloadsFrom(log, s)|
    decreases |log|
  {
    if s < |log| {
      var n := |log| - 1;
      CountsSinceSuccess(log[..n], s);
      assert OverloadsFrom(log, s) - {n} == OverloadsFrom(log[..n], s);
      if log[n].Overloaded? {
        assert OverloadsFrom(log, s) == OverloadsFrom(log[..n], s) + {n};
      }
    } else {
      assert OverloadsFrom(log, s) == {};
    }
  }

  /** The circuit is open exactly from the fifth overload on, and only an open circuit has a probe out. */
  lemma {:induction false} OpenExactlyAfterFive(log: seq<Event>)
    requires Lawful(log)
    ensures Until(log).Some? <==> Overloads(log) >= 5
    ensures Holder(log).Some? ==> Until(log).Some? && Holder(log).value < |log| && log[Holder(log).value].Probed?
    decreases |log|
  {
    if log != [] {
      LawfulPrefix(log, |log| - 1);
      OpenExactlyAfterFive(log[..|log| - 1]);
      assert LawfulAt(log, |log| - 1);
    }
  }

  /** An event that takes the probe back. */
  predicate TakesProbeBack(log: seq<Event>, k: nat)
    requires k < |log|
  {
    log[k].Succeeded? || log[k].Reopened? || log[k].Released?
    || (log[k].Overloaded? && Overloads(log[..k + 1]) >= THRESHOLD)
  }

  /** A probe is out exactly when nothing after it took it back and no later probe passed. */
  lemma {:induction false} HolderIsLastUntakenProbe(log: seq<Event>, p: nat)
    requires p < |log| && log[p].Probed?
    ensures Holder(log) == Some(p)
            <==> forall k: nat | p < k < |log| :: !TakesProbeBack(log, k) && !log[k].Probed?
    decreases |log|
  {
    var n := |log| - 1;
    var rest := log[..n];
    forall k: nat | k < n ensures TakesProbeBack(rest, k) == TakesProbeBack(log, k) {
      assert rest[..k + 1] == log[..k + 1];
    }
    assert log[..n + 1] == log;
    if p < n {
      HolderIsLastUntakenProbe(rest, p);
    }
  }

  /** Between two probes something took the first one back. */
  lemma OneProbeBetweenResets(log: seq<Event>, p: nat, q: nat)
    requires Lawful(log) && p < q < |log| && log[p].Probed? && log[q].Probed?
    ensures exists k: nat | p < k < q :: TakesProbeBack(log, k)
    decreases q - p
  {
    if m: nat :| p < m < q && log[m].Probed? {
      OneProbeBetweenResets(log, p, m);
    } else {
      var before := log[..q];
      HolderIsLastUntakenProbe(before, p);
      assert LawfulAt(log, q) && Holder(before).None?;
      var k: nat :| p < k < |before| && (TakesProbeBack(before, k) || before[k].Probed?);
      assert before[..k + 1] == log[..k + 1];
      assert TakesProbeBack(log, k);
    }
  }

  /** A probe whose owner never reports keeps everyone out until some other report takes it back. */
  lemma AbandonedProbeBlocksEveryone(log: seq<Event>, p: nat, j: nat)
    requires Lawful(log) && p < j < |log| && log[p].Probed?
    requires forall k: nat | p < k < j :: !TakesProbeBack(log, k)
    ensures !log[j].Admitted? && !log[j].Probed?
  {
    forall q: nat | p < q <= j ensures !log[q].Probed? {
      if log[q].Probed? {
        OneProbeBetweenResets(log, p, q);
      }
    }
    var before := log[..j];
    forall k: nat | p < k < j ensures !TakesProbeBack(before, k) {
      assert before[..k + 1] == log[..k + 1] && !TakesProbeBack(log, k);
    }
    HolderIsLastUntakenProbe(before, p);
    LawfulPrefix(log, j);
    OpenExactlyAfterFive(before);
    assert LawfulAt(log, j);
  }

  /** A probe that was taken back is never out again. */
  lemma {:induction false} TakenBackForGood(log: seq<Event>, more: seq<Event>, p: nat)
    requires p < |log| && Holder(log) != Some(p)
    ensures Holder(log + more) != Some(p)
    decreases |more|
  {
    if more == [] {
      assert log + more == log;
    } else {
      TakenBackForGood(log, more[..|more| - 1], p);
      assert (log + more)[..|log + more| - 1] == log + more[..|more| - 1];
    }
  }

  // ---- Shut means shut -----------------------------------------------------------------------

  function TimeOf(e: Event): Option<int> {
    match e
    case Succeeded => None
    case Released => None
    case _ => Some(e.now)
  }

  /** Times in the log never go back. */
  predicate Ordered(log: seq<Event>) {
    forall i, j | 0 <= i < j < |log| && TimeOf(log[i]).Some? && TimeOf(log[j]).Some? ::
      TimeOf(log[i]).value <= TimeOf(log[j]).value
  }

  /** The event at k shut the circuit. */
  predicate Shuts(log: seq<Event>, k: nat)
    requires k < |log|
  {
    (log[k].Overloaded? && Overloads(log[..k + 1]) >= THRESHOLD) || (log[k].Reopened? && Holder(log[..k]).Some?)
  }

  lemma {:induction false} ShutPeriodOnlyGrows(log: seq<Event>, k: nat)
    requires Ordered(log) && k < |log| && Shuts(log, k)
    requires forall m | k < m < |log| :: !log[m].Succeeded?
    ensures Until(log).Some? && Until(log).value >= log[k].now + 30_000
    decreases |log|
  {
    var n := |log| - 1;
    if k < n {
      var rest := log[..n];
      assert rest[..k + 1] == log[..k + 1] && rest[..k] == log[..k];
      ShutPeriodOnlyGrows(rest, k);
    } else {
      assert log[..k + 1] == log;
    }
  }

  /** The shut period is that of the last shutting: thirty seconds from it, and no other event moves its end. */
  lemma {:induction false} UntilIsSetByTheLastShutting(log: seq<Event>, k: nat)
    requires k < |log| && Shuts(log, k)
    requires forall m | k < m < |log| :: !log[m].Succeeded? && !Shuts(log, m)
    ensures Until(log) == Some(log[k].now + 30_000)
    decreases |log|
  {
    var n := |log| - 1;
    if k < n {
      var rest := log[..n];
      forall m | k <= m < n ensures Shuts(rest, m) <==> Shuts(log, m) {
        assert rest[..m + 1] == log[..m + 1] && rest[..m] == log[..m];
      }
      UntilIsSetByTheLastShutting(rest, k);
      assert log[..n + 1] == log && !Shuts(log, n);
    } else {
      assert log[..k + 1] == log;
    }
  }

  /** Nobody is admitted less than the cooldown after the circuit was shut, unless a success came first. */
  lemma NobodyPassesWhileShut(log: seq<Event>, k: nat, j: nat)
    requires Lawful(log) && Ordered(log) && k < j < |log| && Shuts(log, k)
    requires forall m | k < m < j :: !log[m].Succeeded?
    requires log[j].Admitted? || log[j].Probed?
    ensures log[j].Probed? && log[j].now >= log[k].now + 30_000
  {
    var before := log[..j];
    assert before[..k + 1] == log[..k + 1] && before[..k] == log[..k];
    ShutPeriodOnlyGrows(before, k);
    assert LawfulAt(log, j);
  }

  // ---- The circuit ---------------------------------------------------------------------------

  class Circuit {
    var overloads: nat
    var circuitUntil: Option<int>
    var halfOpen: bool
    ghost var log: seq<Event>

    ghost predicate Valid()
      reads this
    {
      && Lawful(log)
      && overloads == Overloads(log)
      && circuitUntil == Until(log)
      && halfOpen == Holder(log).Some?
    }

    constructor ()
      ensures Valid() && log == []
    {
      overloads, circuitUntil, halfOpen, log := 0, None, false, [];
    }

    /** Admission is refused while shut and while a probe is out; a probe that never reports refuses everyone. */
    method Allow(now: int) returns (allowed: bool)
      requires Valid()
      modifies this
      ensures Valid()
      ensures allowed <==> Until(old(log)).None? || (Until(old(log)).value <= now && Holder(old(log)).None?)
      ensures log == old(log) + if !allowed then [] else if Until(old(log)).None? then [Admitted(now)] else [Probed(now)]
    {
      OpenExactlyAfterFive(log);
      if circuitUntil.Some? && now < circuitUntil.value {
        return false;
      }
      if circuitUntil.Some? {
        if halfOpen {
          return false;
        }
        halfOpen := true;
      }
      LawfulAppend(log, if circuitUntil.Some? then Probed(now) else Admitted(now));
      log := log + [if circuitUntil.Some? then Probed(now) else Admitted(now)];
      return true;
    }

    method RecordOverload(now: int)
      requires Valid()
      modifies this
      ensures Valid() && log == old(log) + [Overloaded(now)]
    {
      LawfulAppend(log, Overloaded(now));
      overloads := overloads + 1;
      if overloads >= THRESHOLD {
        circuitUntil := Some(now + COOLDOWN);
        halfOpen := false;
      }
      log := log + [Overloaded(now)];
    }

    method RecordSuccess()
      requires Valid()
      modifies this
      ensures Valid() && log == old(log) + [Succeeded]
    {
      LawfulAppend(log, Succeeded);
      overloads := 0;
      circuitUntil := None;
      halfOpen := false;
      log := log + [Succeeded];
    }

    method ReopenHalfOpenProbe(now: int)
      requires Valid()
      modifies this
      ensures Valid() && log == old(log) + [Reopened(now)]
    {
      OpenExactlyAfterFive(log);
      LawfulAppend(log, Reopened(now));
      if halfOpen && circuitUntil.Some? {
        circuitUntil := Some(now + COOLDOWN);
        halfOpen := false;
      }
      log := log + [Reopened(now)];
    }

    method ReleaseHalfOpenProbe()
      requires Valid()
      modifies this
      ensures Valid() && log == old(log) + [Released]
    {
      OpenExactlyAfterFive(log);
      LawfulAppend(log, Released);
      if circuitUntil.Some? {
        halfOpen := false;
      }
      log := log + [Released];
    }
  }
}
