/** A dispatch whose probe nobody takes back: it replied, and only a renewal after the reply did not reach the store. */
module AbandonedProbe {
  import opened Options
  import opened MessageTables
  import opened MessageProtocol
  import opened MessageStore
  import opened Dispatcher
  import Probe = ProbeCircuit

  const ROW := Row(1, 1, 1, 0, MAX_ATTEMPTS)

  /** Everything goes well but the first renewal after the commit. */
  const MISHAP := Outside(Unreachable, Probe.COOLDOWN, Probe.COOLDOWN, 0, 1, false, None, None, None, None,
                          Reply(2, [], false, false), [], [], [], [true], false, false, false)

  /** One message waits for its worker. */
  function Waiting(): State {
    Step(Init(1), Send(1, Draft(1, 1, None, ToAgent(1))))
  }

  lemma WaitingIsLeasable()
    ensures ROW.id in Waiting().db.tasks && Waiting().db.tasks[1].message == 1
    ensures AnswerTo(Waiting(), TakeLease(1, 1)) == Rows(1)
    ensures AnswerTo(Step(Waiting(), TakeLease(1, 1)), Commit(1, 1, MISHAP.reply)) == Written
  {
    var asked := Message(1, Visitor, None, None, false, 0);
    var db := Tables(map[1 := asked], map[1 := Task(1, 1, Queued, 0, MAX_ATTEMPTS, 0, None, None)], map[], map[], 0);
    assert VisitorMessages(Init(1).db, 1) == {} && ActiveTasks(Init(1).db) == {};
    assert Waiting().db == db;
    assert Leasable(db, 1);
  }

  /** With nothing to renew before the reply, the dispatch leases and commits, and that is all. */
  lemma MishapScript(leased: Answer, t: Turn)
    requires Replays(Waiting(), DispatchScript(ROW, MISHAP, leased, t)) && (Claims(MISHAP, leased) ==> TurnRan(MISHAP, t))
    ensures leased == Rows(1) && t.answer == Written
    ensures DispatchOutcome(ROW, MISHAP, leased, t) == HeartbeatFailed(RenewFailed)
  {
    WaitingIsLeasable();
    var script := DispatchScript(ROW, MISHAP, leased, t);
    assert script[0] == Statement(TakeLease(1, 1), leased);
    assert script == [Statement(TakeLease(1, 1), leased), Statement(Commit(1, 1, MISHAP.reply), t.answer)];
    assert script[1..][0] == Statement(Commit(1, 1, MISHAP.reply), t.answer);
  }

  lemma FiveOverloads(log: seq<Probe.Event>)
    requires log == [Probe.Overloaded(0), Probe.Overloaded(0), Probe.Overloaded(0), Probe.Overloaded(0), Probe.Overloaded(0)]
    ensures Probe.Until(log) == Some(Probe.COOLDOWN) && Probe.Holder(log).None?
  {
    assert Probe.Overloads(log[..1]) == 1 && log[..2][..1] == log[..1] && log[..3][..2] == log[..2];
    assert Probe.Overloads(log[..3]) == 3 && log[..4][..3] == log[..3];
    assert log[..4] == log[..|log| - 1];
  }

  method OpenCircuit() returns (circuit: Probe.Circuit)
    ensures fresh(circuit) && circuit.Valid() && |circuit.log| == 5
    ensures Probe.Until(circuit.log) == Some(Probe.COOLDOWN) && Probe.Holder(circuit.log).None?
  {
    circuit := new Probe.Circuit();
    for i := 0 to 5
      invariant circuit.Valid() && |circuit.log| == i && forall k | 0 <= k < i :: circuit.log[k] == Probe.Overloaded(0)
      modifies circuit
    {
      circuit.RecordOverload(0);
    }
    FiveOverloads(circuit.log);
  }

  /** The reply is there and the task completed, and the probe stays out: nobody is admitted from here on. */
  method ProbeIsAbandoned() returns (circuit: Probe.Circuit, outcome: Outcome, ghost left: State)
    ensures outcome == HeartbeatFailed(RenewFailed) && TaskAnswered(left.db, ROW, MISHAP.reply.id)
    ensures circuit.Valid() && Probe.Holder(circuit.log) == Some(5)
  {
    var store := new Store(1, []);
    store.Act(Send(1, Draft(1, 1, None, ToAgent(1))));
    WaitingIsLeasable();
    circuit := OpenCircuit();
    var dispatcher := new Dispatcher(store, circuit, false, []);
    ghost var leased, t, ticket;
    label before:
    outcome, ticket, leased, t := dispatcher.Dispatch(ROW, MISHAP);
    store.AloneItReplays@before();
    left := store.state;
    MishapScript(leased, t);
  }
}
