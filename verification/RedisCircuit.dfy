/**
  The shared circuit as its Redis scripts keep it: two sorted sets, a state hash and a probe key,
  each with its own time to live. The scripts refine the history machine.
*/
module RedisCircuit {
  import opened Options
  import opened SortedSets
  import opened CircuitCalls
  import opened CircuitHistory

  /** The state hash; a missing field is None, a missing key has no field. */
  datatype Hash = Hash(consecutive: Option<int>, openUntil: Option<int>, deadline: Option<int>)

  const NO_HASH := Hash(None, None, None)

  function Seen(hash: Hash, now: int): Hash {
    if hash.deadline.Some? && now > hash.deadline.value then NO_HASH else hash
  }

  function OrZero(field: Option<int>): int {
    if field.Some? then field.value else 0
  }

  /** The hash a history leaves behind. */
  ghost predicate HashFits(hash: Hash, cfg: Config, h: seq<Event>, now: int) {
    if Alive(cfg, h, now) then
      && hash.deadline == Some(Last(h).at + StateLife(cfg, Last(h).kind))
      && OrZero(hash.consecutive) == Streak(cfg, h)
      && hash.openUntil == OpenUntil(cfg, h)
    else Seen(hash, now) == NO_HASH
  }

  ghost predicate UpTo(h: seq<Event>, now: int) {
    forall i | 0 <= i < |h| :: 0 <= h[i].at <= now
  }

  /** Both sets hold the history's marks, and every mark in the window can be seen. */
  ghost predicate SetsFit(cfg: Config, outcomes: Cell, failures: Cell, h: seq<Event>, now: int) {
    Fits(outcomes, now, cfg.window, Outcomes(h)) && Fits(failures, now, cfg.window, Failures(h))
  }

  lemma SetsStayFit(cfg: Config, outcomes: Cell, failures: Cell, h: seq<Event>, now: int, later: int)
    requires SetsFit(cfg, outcomes, failures, h, now) && now <= later
    ensures SetsFit(cfg, outcomes, failures, h, later)
  {
    TimePassesFits(outcomes, now, later, cfg.window, Outcomes(h));
    TimePassesFits(failures, now, later, cfg.window, Failures(h));
  }

  lemma OutcomesGrow(h: seq<Event>, e: Event)
    ensures Outcomes(h + [e]) == if e.kind == Reopen then Outcomes(h) else Outcomes(h)[|h| := e.at]
    ensures Failures(h + [e]) == if e.kind == Overload then Failures(h)[|h| := e.at] else Failures(h)
  {
    assert Before(h + [e]) == h;
  }

  lemma MarksAreEarlier(h: seq<Event>, now: int)
    requires UpTo(h, now)
    ensures |h| !in Outcomes(h) && |h| !in Failures(h)
    ensures (forall i <- Outcomes(h) :: Outcomes(h)[i] <= now) && (forall i <- Failures(h) :: Failures(h)[i] <= now)
  {
    MarksAreReports(h);
  }

  /** One sorted set of a record script: purged, given the new mark if it gets one, counted, extended. */
  method Marked(cfg: Config, c: Cell, now: int, add: bool, id: nat, ghost marks: map<nat, int>)
    returns (c': Cell, count: nat)
    requires Accepted(cfg) && Fits(c, now, cfg.window, marks) && id !in marks
    requires forall i <- marks :: marks[i] <= now
    ensures var marks' := if add then marks[id := now] else marks;
            Fits(c', now, cfg.window, marks') && count == |InWindow(cfg, marks', now)|
  {
    ghost var marks' := if add then marks[id := now] else marks;
    PurgeFits(c, now, cfg.window, marks);
    c' := ZRemRangeByScore(c, now, now - cfg.window);
    ghost var purged := c';
    if add {
      c' := ZAdd(c', now, now, id);
    }
    count := |Visible(c', now)|;
    assert Visible(c', now).Keys == InWindow(cfg, marks', now);
    assert count == |Visible(c', now).Keys|;
    c' := PExpire(c', now, cfg.window * 2);
    if add {
      AddFits(purged, now, cfg.window, marks, id, now, cfg.window * 2);
    } else {
      ExtendFits(purged, now, cfg.window, marks, cfg.window * 2);
    }
  }

  class SharedCircuit {
    const cfg: Config
    var outcomes: Cell
    var failures: Cell
    var hash: Hash
    var probe: Option<int>
    var now: int
    /** The id of the next report; report ids are unique, and restart with the sets here. */
    var next: nat
    /** The callers of this process that have seen an over deadline and not yet asked for the probe. */
    var waiting: set<nat>
    ghost var circuit: Circuit

    ghost predicate Valid()
      reads this
    {
      && Accepted(cfg) && 0 <= now && circuit.now == now && circuit.probe == probe && next == |circuit.h|
      && UpTo(circuit.h, now)
      && SetsFit(cfg, outcomes, failures, circuit.h, now)
      && HashFits(hash, cfg, circuit.h, now)
    }

    constructor (cfg: Config, now: int)
      requires Accepted(cfg) && 0 <= now
      ensures Valid() && this.cfg == cfg && circuit == Closed(now) && waiting == {}
    {
      this.cfg, this.now := cfg, now;
      outcomes, failures, hash, probe, next, waiting := EMPTY, EMPTY, NO_HASH, None, 0, {};
      circuit := Closed(now);
    }

    method Wait(elapsed: nat)
      requires Valid()
      modifies this
      ensures Valid() && circuit == Apply(cfg, old(circuit), Advance(elapsed)) && waiting == old(waiting)
    {
      SetsStayFit(cfg, outcomes, failures, circuit.h, now, now + elapsed);
      now := now + elapsed;
      circuit := circuit.(now := now);
    }

    /** The part of both record scripts that touches the sorted sets: purge, mark, count, extend. */
    method Mark(overload: bool) returns (total: nat, failed: nat)
      requires Accepted(cfg) && next == |circuit.h| && UpTo(circuit.h, now)
      requires SetsFit(cfg, outcomes, failures, circuit.h, now)
      modifies this`outcomes, this`failures, this`next
      ensures var h := circuit.h + [Event(now, if overload then Overload else Success)];
              && SetsFit(cfg, outcomes, failures, h, now) && next == |h|
              && total == |InWindow(cfg, Outcomes(h), now)| && failed == |InWindow(cfg, Failures(h), now)|
    {
      OutcomesGrow(circuit.h, Event(now, if overload then Overload else Success));
      MarksAreEarlier(circuit.h, now);
      outcomes, total := Marked(cfg, outcomes, now, true, next, Outcomes(circuit.h));
      failures, failed := Marked(cfg, failures, now, overload, next, Failures(circuit.h));
      next := next + 1;
    }

    /** The part of the record script that touches the state hash and the probe. */
    method CountOverload(total: nat, failed: nat) returns (tripped: bool)
      requires Accepted(cfg) && HashFits(hash, cfg, circuit.h, now)
      requires total == |InWindow(cfg, Outcomes(Reported(circuit, Overload)), now)|
      requires failed == |InWindow(cfg, Failures(Reported(circuit, Overload)), now)|
      requires circuit.now == now && circuit.probe == probe
      modifies this`hash, this`probe
      ensures HashFits(hash, cfg, Reported(circuit, Overload), now)
      ensures tripped <==> Trips(cfg, Reported(circuit, Overload))
      ensures probe == if tripped then None else old(probe)
    {
      assert Before(Reported(circuit, Overload)) == circuit.h;
      hash := Seen(hash, now);
      hash := hash.(consecutive := Some(OrZero(hash.consecutive) + 1));
      tripped := hash.consecutive.value >= cfg.threshold || (total >= 10 && failed * 100 >= total * cfg.percent);
      if tripped {
        hash := hash.(openUntil := Some(now + cfg.cooldown));
        probe := None;
      }
      hash := hash.(deadline := Some(now + cfg.cooldown * 2));
    }

    /** The record script: it opens the circuit exactly when the history says that this overload trips it. */
    method RecordOverload() returns (tripped: bool)
      requires Valid()
      modifies this
      ensures Valid() && circuit == Apply(cfg, old(circuit), CircuitHistory.RecordOverload) && waiting == old(waiting)
      ensures circuit.h == old(circuit.h) + [Event(now, Overload)] && probe == if tripped then None else old(probe)
      ensures tripped <==> Trips(cfg, Reported(old(circuit), Overload))
      ensures var h := Reported(old(circuit), Overload); tripped <==> StreakReached(cfg, h) || ShareReached(cfg, h)
    {
      TripsExactlyWhen(cfg, Reported(circuit, Overload));
      var total, failed := Mark(true);
      tripped := CountOverload(total, failed);
      circuit := Circuit(Reported(circuit, Overload), probe, now);
    }

    /** The success script: a success while the probe is out resets everything. */
    method RecordSuccess()
      requires Valid()
      modifies this
      ensures Valid() && circuit == Apply(cfg, old(circuit), CircuitHistory.RecordSuccess) && waiting == old(waiting)
      ensures if old(probe).Some? && now <= old(probe).value then circuit.h == [] && probe.None?
              else circuit.h == old(circuit.h) + [Event(now, Success)] && probe == old(probe)
    {
      if probe.Some? && now <= probe.value {
        outcomes, failures, hash, probe, next := EMPTY, EMPTY, NO_HASH, None, 0;
        circuit := Closed(now);
      } else {
        CountSuccess();
      }
    }

    method CountSuccess()
      requires Valid() && !(probe.Some? && now <= probe.value)
      modifies this
      ensures Valid() && circuit == Apply(cfg, old(circuit), CircuitHistory.RecordSuccess) && waiting == old(waiting)
    {
      ghost var h := Reported(circuit, Success);
      assert Before(h) == circuit.h;
      var _, _ := Mark(false);
      hash := Seen(hash, now).(consecutive := Some(0), deadline := Some(now + cfg.window * 2));
      circuit := Circuit(h, probe, now);
    }

    /** The reopen script looks at nothing: it opens a closed circuit as well. */
    method Reopen()
      requires Valid()
      modifies this
      ensures Valid() && circuit == Apply(cfg, old(circuit), ReopenNow) && waiting == old(waiting)
      ensures circuit.h == old(circuit.h) + [Event(now, CircuitHistory.Reopen)] && probe.None?
    {
      ghost var h := Reported(circuit, CircuitHistory.Reopen);
      assert Before(h) == circuit.h;
      OutcomesGrow(circuit.h, Event(now, CircuitHistory.Reopen));
      hash := Seen(hash, now).(openUntil := Some(now + cfg.cooldown), deadline := Some(now + cfg.cooldown * 2));
      probe := None;
      next := next + 1;
      circuit := Circuit(h, None, now);
    }

    ghost function State(): Calls
      reads this
    {
      Calls(circuit, waiting)
    }

    /** The first call, HGET: a missing deadline lets the caller pass, a running one refuses it. */
    method Look(caller: nat, age: nat) returns (verdict: Option<bool>)
      requires Valid()
      modifies this`waiting
      ensures Valid() && State() == Take(cfg, old(State()), CircuitCalls.Look(caller, age))
      ensures verdict == Some(true) <==> Passes(cfg, old(State()), CircuitCalls.Look(caller, age))
      ensures verdict.None? <==> IsOver(cfg, circuit, age)
    {
      OpenUntilIsPositive(cfg, circuit.h, now);
      var until := OrZero(Seen(hash, now).openUntil);
      if until == 0 {
        verdict := Some(true);
      } else if now - age < until {
        verdict := Some(false);
      } else {
        verdict := None;
        waiting := waiting + {caller};
      }
    }

    /** The second call, SETNX with the cooldown as its time to live: whoever finds no probe out gets it. */
    method Claim(caller: nat) returns (granted: bool)
      requires Valid() && caller in waiting
      modifies this`waiting, this`probe, this`circuit
      ensures Valid() && State() == Take(cfg, old(State()), CircuitCalls.Claim(caller))
      ensures granted <==> Passes(cfg, old(State()), CircuitCalls.Claim(caller))
    {
      granted := !(probe.Some? && now <= probe.value);
      if granted {
        probe := Some(now + cfg.cooldown);
        circuit := circuit.(probe := probe);
      }
      waiting := waiting - {caller};
    }

    /** Whatever another caller does. */
    method Other(step: Step)
      requires Valid()
      modifies this
      ensures Valid() && State() == Take(cfg, old(State()), step)
    {
      match step {
        case Does(RecordOverload) => var _ := RecordOverload();
        case Does(RecordSuccess) => RecordSuccess();
        case Does(ReopenNow) => Reopen();
        case Does(Advance(elapsed)) => Wait(elapsed);
        case Does(Allow) => AllowAtOnce();
        case Look(caller, age) => var _ := Look(caller, age);
        case Claim(caller) =>
          if caller in waiting {
            var _ := Claim(caller);
          }
      }
    }

    /** The two calls with nothing between them. */
    method AllowAtOnce()
      requires Valid()
      modifies this
      ensures Valid() && State() == Take(cfg, old(State()), Does(CircuitHistory.Allow))
    {
      var caller := Unused(waiting);
      AdjacentCallsAreOne(cfg, State(), caller, 0);
      var verdict := Look(caller, 0);
      if verdict.None? {
        var _ := Claim(caller);
      }
    }

    /** Ask for admission by a clock read a while ago, with everything that others do between the two calls. */
    method Allow(caller: nat, age: nat, between: seq<Step>) returns (allowed: bool)
      requires Valid() && caller !in waiting && NotBy(between, caller)
      modifies this
      ensures Valid()
      ensures var seen := Take(cfg, old(State()), CircuitCalls.Look(caller, age));
              if caller !in seen.waiting then State() == seen && (allowed <==> Passes(cfg, old(State()), CircuitCalls.Look(caller, age)))
              else && State() == Take(cfg, TakeAll(cfg, seen, between), CircuitCalls.Claim(caller))
                   && (allowed <==> !ProbeOut(TakeAll(cfg, seen, between).circuit))
    {
      var verdict := Look(caller, age);
      if verdict.Some? {
        return verdict.value;
      }
      ghost var seen := State();
      assert between[..0] == [];
      for i := 0 to |between|
        invariant Valid() && State() == TakeAll(cfg, seen, between[..i]) && caller in waiting
      {
        assert between[..i + 1][..i] == between[..i];
        Other(between[i]);
      }
      assert between[..|between|] == between;
      allowed := Claim(caller);
    }
  }

  /** None of the steps is one of this caller's calls. */
  predicate NotBy(steps: seq<Step>, caller: nat) {
    forall i | 0 <= i < |steps| :: steps[i].Does? || steps[i].caller != caller
  }

  method Unused(taken: set<nat>) returns (caller: nat)
    ensures caller !in taken
  {
    caller := 0;
    var left := taken;
    while left != {}
      invariant left <= taken && forall k <- taken :: k in left || k < caller
      decreases |left|
    {
      var k :| k in left;
      left := left - {k};
      caller := if k >= caller then k + 1 else caller;
    }
  }

  lemma {:induction false} OpenUntilIsPositive(cfg: Config, h: seq<Event>, now: int)
    requires Accepted(cfg) && UpTo(h, now)
    ensures OpenUntil(cfg, h).Some? ==> OpenUntil(cfg, h).value > 0
    decreases |h|
  {
    if h != [] {
      OpenUntilIsPositive(cfg, Before(h), now);
    }
  }
}
