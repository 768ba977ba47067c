/**
  Asking the shared circuit as the two calls it is: HGET of the deadline, then SETNX of the probe,
  with any number of callers between the two and anything reported in between.
*/
module CircuitCalls {
  import opened Options
  import opened CircuitHistory

  /** The circuit, and the callers that have seen an over deadline and not yet asked for the probe. */
  datatype Calls = Calls(circuit: Circuit, waiting: set<nat>)

  /** age is how long before its HGET a caller read the clock that it compares the deadline with. */
  datatype Step = Does(op: Op) | Look(caller: nat, age: nat) | Claim(caller: nat)

  /** The deadline that the caller finds is over, by the clock it has read. */
  predicate IsOver(cfg: Config, c: Circuit, age: nat) {
    Until(cfg, c).Some? && Until(cfg, c).value <= c.now - age
  }

  /** A missing deadline lets the caller pass at once, a running one refuses it; neither asks for the probe. */
  function Take(cfg: Config, s: Calls, step: Step): Calls {
    match step
    case Does(op) => s.(circuit := Apply(cfg, s.circuit, op))
    case Look(caller, age) =>
      if IsOver(cfg, s.circuit, age)
      then s.(waiting := s.waiting + {caller})
      else s
    case Claim(caller) =>
      if caller !in s.waiting then s
      else Calls(if ProbeOut(s.circuit) then s.circuit
                 else s.circuit.(probe := Some(s.circuit.now + cfg.cooldown)), s.waiting - {caller})
  }

  predicate Passes(cfg: Config, s: Calls, step: Step) {
    match step
    case Does(op) => op == Allow && Admits(cfg, s.circuit)
    case Look(_, _) => Until(cfg, s.circuit).None?
    case Claim(caller) => caller in s.waiting && !ProbeOut(s.circuit)
  }

  function TakeAll(cfg: Config, s: Calls, steps: seq<Step>): Calls {
    if steps == [] then s else Take(cfg, TakeAll(cfg, s, steps[..|steps| - 1]), steps[|steps| - 1])
  }

  /** Nobody passes at any of these steps. */
  predicate NobodyPasses(cfg: Config, s: Calls, steps: seq<Step>) {
    steps == []
    || (NobodyPasses(cfg, s, steps[..|steps| - 1])
        && !Passes(cfg, TakeAll(cfg, s, steps[..|steps| - 1]), steps[|steps| - 1]))
  }

  /** With nothing in between, the two calls are the one operation of the history, but for what an older reading of the clock refuses. */
  lemma AdjacentCallsAreOne(cfg: Config, s: Calls, caller: nat, age: nat)
    requires caller !in s.waiting
    ensures var seen := Take(cfg, s, Look(caller, age));
            var inTime := Until(cfg, s.circuit).None? || IsOver(cfg, s.circuit, age);
            && (Passes(cfg, s, Look(caller, age)) || Passes(cfg, seen, Claim(caller)) <==> inTime && Admits(cfg, s.circuit))
            && Take(cfg, seen, Claim(caller)) == if inTime then s.(circuit := Apply(cfg, s.circuit, Allow)) else s
  {
  }

  // ---- The cooldown --------------------------------------------------------------------------

  lemma QuietStepStaysShut(cfg: Config, s: Calls, u: int, step: Step)
    requires Accepted(cfg) && 2 * cfg.window + 1 >= cfg.cooldown
    requires ShutUntil(cfg, s.circuit, u) && u <= s.circuit.now + cfg.cooldown && s.circuit.now < u
    ensures Passes(cfg, s, step) <==> step.Claim? && step.caller in s.waiting
    ensures var t := Take(cfg, s, step);
            !Passes(cfg, s, step) ==> ShutUntil(cfg, t.circuit, u) && t.waiting <= s.waiting && t.circuit.now >= s.circuit.now
  {
    assert Alive(cfg, s.circuit.h, s.circuit.now);
    if step.Does? {
      ShutStays(cfg, s.circuit, u, step.op);
    }
  }

  lemma {:induction false} QuietStepsStayShut(cfg: Config, s: Calls, steps: seq<Step>)
    requires Accepted(cfg) && 2 * cfg.window + 1 >= cfg.cooldown && JustOpened(cfg, s.circuit)
    requires NobodyPasses(cfg, s, steps)
    ensures var t := TakeAll(cfg, s, steps);
            && t.circuit.now >= s.circuit.now
            && (t.circuit.now < s.circuit.now + cfg.cooldown ==>
                  ShutUntil(cfg, t.circuit, s.circuit.now + cfg.cooldown) && t.waiting <= s.waiting)
    decreases |steps|
  {
    if steps != [] {
      var before := steps[..|steps| - 1];
      QuietStepsStayShut(cfg, s, before);
      var m := TakeAll(cfg, s, before);
      if m.circuit.now < s.circuit.now + cfg.cooldown {
        QuietStepStaysShut(cfg, m, s.circuit.now + cfg.cooldown, steps[|steps| - 1]);
      }
    }
  }

  /**
    The first to pass within a cooldown of an opening is exactly a caller whose HGET was before
    the opening and whose SETNX is after it; until then no probe is out, so it gets it.
  */
  lemma FirstToPassExactlyWhen(cfg: Config, s: Calls, steps: seq<Step>, step: Step)
    requires Accepted(cfg) && 2 * cfg.window + 1 >= cfg.cooldown && JustOpened(cfg, s.circuit)
    requires NobodyPasses(cfg, s, steps) && TakeAll(cfg, s, steps).circuit.now < s.circuit.now + cfg.cooldown
    ensures var t := TakeAll(cfg, s, steps);
            && !ProbeOut(t.circuit) && t.waiting <= s.waiting
            && (Passes(cfg, t, step) <==> step.Claim? && step.caller in t.waiting)
  {
    QuietStepsStayShut(cfg, s, steps);
    QuietStepStaysShut(cfg, TakeAll(cfg, s, steps), s.circuit.now + cfg.cooldown, step);
  }

  predicate PassesEarly(cfg: Config, s: Calls, steps: seq<Step>, step: Step) {
    var t := TakeAll(cfg, s, steps);
    t.circuit.now < s.circuit.now + cfg.cooldown && Passes(cfg, t, step)
  }

  ghost predicate CanPassEarly(cfg: Config, s: Calls) {
    exists steps: seq<Step>, step: Step :: PassesEarly(cfg, s, steps, step)
  }

  /** Somebody can pass within a cooldown of an opening exactly when a caller was between its two calls then. */
  lemma CooldownIsKeptByCallsExactlyWhen(cfg: Config, s: Calls)
    requires Accepted(cfg) && 2 * cfg.window + 1 >= cfg.cooldown && JustOpened(cfg, s.circuit)
    ensures CanPassEarly(cfg, s) <==> s.waiting != {}
  {
    if s.waiting != {} {
      var caller :| caller in s.waiting;
      assert PassesEarly(cfg, s, [], Claim(caller));
    } else {
      forall steps: seq<Step>, step: Step ensures !PassesEarly(cfg, s, steps, step) {
        NobodyIsLate(cfg, s, steps);
        if TakeAll(cfg, s, steps).circuit.now < s.circuit.now + cfg.cooldown {
          FirstToPassExactlyWhen(cfg, s, steps, step);
        }
      }
    }
  }

  lemma TimeGoesOn(cfg: Config, s: Calls, step: Step)
    ensures Take(cfg, s, step).circuit.now >= s.circuit.now
  {
  }

  lemma {:induction false} NobodyIsLate(cfg: Config, s: Calls, steps: seq<Step>)
    requires Accepted(cfg) && 2 * cfg.window + 1 >= cfg.cooldown && JustOpened(cfg, s.circuit) && s.waiting == {}
    ensures TakeAll(cfg, s, steps).circuit.now < s.circuit.now + cfg.cooldown ==> NobodyPasses(cfg, s, steps)
    decreases |steps|
  {
    if steps != [] {
      var before := steps[..|steps| - 1];
      NobodyIsLate(cfg, s, before);
      TimeGoesOn(cfg, TakeAll(cfg, s, before), steps[|steps| - 1]);
      if TakeAll(cfg, s, steps).circuit.now < s.circuit.now + cfg.cooldown {
        FirstToPassExactlyWhen(cfg, s, before, steps[|steps| - 1]);
      }
    }
  }

  /** One such caller is enough: its success resets the circuit that was opened meanwhile, and everybody passes. */
  lemma LateProbeUndoesTheOpening(cfg: Config, s: Calls, late: nat, other: nat, age: nat)
    requires Accepted(cfg) && JustOpened(cfg, s.circuit) && late in s.waiting
    ensures Passes(cfg, s, Claim(late))
    ensures PassesEarly(cfg, s, [Claim(late), Does(RecordSuccess)], Look(other, age))
  {
    var steps := [Claim(late), Does(RecordSuccess)];
    assert steps[..1] == [Claim(late)] && [Claim(late)][..0] == [];
    assert TakeAll(cfg, s, []) == s && TakeAll(cfg, s, [Claim(late)]) == Take(cfg, s, Claim(late));
    assert TakeAll(cfg, s, steps) == Take(cfg, Take(cfg, s, Claim(late)), Does(RecordSuccess));
  }

  // ---- One probe among many callers ----------------------------------------------------------

  /** The step sends a probe out. */
  predicate Grants(cfg: Config, s: Calls, step: Step) {
    match step
    case Does(op) => op == Allow && Until(cfg, s.circuit).Some? && Admits(cfg, s.circuit)
    case Look(_, _) => false
    case Claim(caller) => caller in s.waiting && !ProbeOut(s.circuit)
  }

  /** The step takes a probe back that is out. */
  predicate TakesBack(cfg: Config, s: Calls, step: Step) {
    step.Does?
    && (step.op == ReopenNow || (step.op == RecordSuccess && ProbeOut(s.circuit))
        || (step.op == RecordOverload && Trips(cfg, Reported(s.circuit, Overload))))
  }

  predicate NothingTakesBack(cfg: Config, s: Calls, steps: seq<Step>) {
    steps == []
    || (NothingTakesBack(cfg, s, steps[..|steps| - 1])
        && !TakesBack(cfg, TakeAll(cfg, s, steps[..|steps| - 1]), steps[|steps| - 1]))
  }

  function Granted(cfg: Config, s: Calls, steps: seq<Step>): nat {
    if steps == [] then 0
    else
      var before := steps[..|steps| - 1];
      Granted(cfg, s, before) + if Grants(cfg, TakeAll(cfg, s, before), steps[|steps| - 1]) then 1 else 0
  }

  /** However many callers stand between their calls, one probe at most goes out until it is taken back or its key lapses. */
  lemma {:induction false} OneProbeAmongCallers(cfg: Config, s: Calls, steps: seq<Step>)
    requires Accepted(cfg) && NothingTakesBack(cfg, s, steps)
    requires TakeAll(cfg, s, steps).circuit.now <= s.circuit.now + cfg.cooldown
    ensures Granted(cfg, s, steps) <= if ProbeOut(s.circuit) && TakeAll(cfg, s, steps).circuit.now <= s.circuit.probe.value then 0 else 1
    ensures var t := TakeAll(cfg, s, steps);
            && t.circuit.now >= s.circuit.now
            && (Granted(cfg, s, steps) == 0 ==> t.circuit.probe == s.circuit.probe)
            && (Granted(cfg, s, steps) == 1 ==> t.circuit.probe.Some? && t.circuit.probe.value >= s.circuit.now + cfg.cooldown)
    decreases |steps|
  {
    if steps != [] {
      var before := steps[..|steps| - 1];
      TimeGoesOn(cfg, TakeAll(cfg, s, before), steps[|steps| - 1]);
      OneProbeAmongCallers(cfg, s, before);
    }
  }
}
