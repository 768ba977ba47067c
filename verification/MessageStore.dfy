/** The shared tables as one agent sees them: its own statements, and everyone else's in between. */
module MessageStore {
  import opened Options
  import opened MessageTables
  import opened MessageProtocol
  import opened MessageInvariant
  import opened MessageGuarantees

  /** The token is issued, and on no task but this one. */
  ghost predicate OnlyOn(s: State, task: Id, token: Token) {
    token in s.tokens && forall k <- s.db.tasks | s.db.tasks[k].leaseToken == Some(token) :: k == task
  }

  /** What later states keep of earlier ones: messages, the message of a task, completion, and a dead token. */
  ghost predicate Later(s: State, s': State, task: Id, token: Token) {
    && FactsKept(s, s') && OnlyOn(s', task, token)
    && (Held(s'.db, task, token) || HoldsNothing(s'.db, token))
    && (HoldsNothing(s.db, token) ==> HoldsNothing(s'.db, token))
  }

  /** The states a run went through, one more than its actions. */
  ghost predicate IsRun(capacity: int, states: seq<State>, trace: seq<Action>) {
    && |states| == |trace| + 1 && states[0] == Init(capacity)
    && forall i | 0 <= i < |trace| :: IsStep(states, trace, i)
  }

  ghost predicate IsStep(states: seq<State>, trace: seq<Action>, i: nat)
    requires i < |trace| && |states| == |trace| + 1
  {
    states[i + 1] == Step(states[i], trace[i])
  }

  lemma {:induction false} StatesOfARun(capacity: int, states: seq<State>, trace: seq<Action>)
    requires IsRun(capacity, states, trace)
    ensures states[|trace|] == Run(Init(capacity), trace)
    decreases |trace|
  {
    if trace != [] {
      var n := |trace| - 1;
      var before, shorter := states[..n + 1], trace[..n];
      forall i | 0 <= i < n ensures IsStep(before, shorter, i) {
        assert IsStep(states, trace, i);
      }
      StatesOfARun(capacity, before, shorter);
      assert IsStep(states, trace, n);
    }
  }

  lemma RunGrows(capacity: int, states: seq<State>, trace: seq<Action>, a: Action)
    requires IsRun(capacity, states, trace)
    ensures IsRun(capacity, states + [Step(states[|trace|], a)], trace + [a])
  {
    var longer, more := states + [Step(states[|trace|], a)], trace + [a];
    forall i | 0 <= i < |more| ensures IsStep(longer, more, i) {
      assert i < |trace| ==> IsStep(states, trace, i);
    }
  }

  /** What an agent knows of its token and of the tables after the run went on. */
  lemma LaterInTheRun(capacity: int, states: seq<State>, trace: seq<Action>, states': seq<State>, trace': seq<Action>,
                      task: Id, token: Token)
    requires IsRun(capacity, states, trace) && IsRun(capacity, states', trace') && trace <= trace'
    requires OnlyOn(states[|trace|], task, token)
    ensures Later(states[|trace|], states'[|trace'|], task, token)
  {
    StatesOfARun(capacity, states, trace);
    StatesOfARun(capacity, states', trace');
    assert trace' == trace + trace'[|trace|..];
    WhatFollowsIsLater(capacity, trace, trace'[|trace|..], task, token);
  }

  lemma LaterFacts(capacity: int, states: seq<State>, trace: seq<Action>, states': seq<State>, trace': seq<Action>)
    requires IsRun(capacity, states, trace) && IsRun(capacity, states', trace') && trace <= trace'
    ensures FactsKept(states[|trace|], states'[|trace'|])
  {
    StatesOfARun(capacity, states, trace);
    StatesOfARun(capacity, states', trace');
    assert trace' == trace + trace'[|trace|..];
    RunInTwo(Init(capacity), trace, trace'[|trace|..]);
    FactsAreNeverUndone(Run(Init(capacity), trace), trace'[|trace|..]);
  }

  lemma WhatFollowsIsLater(capacity: int, trace: seq<Action>, more: seq<Action>, task: Id, token: Token)
    requires OnlyOn(Run(Init(capacity), trace), task, token)
    ensures Later(Run(Init(capacity), trace), Run(Init(capacity), trace + more), task, token)
  {
    var s := Run(Init(capacity), trace);
    ReachableSatisfiesInv(capacity, trace);
    RunInTwo(Init(capacity), trace, more);
    FactsAreNeverUndone(s, more);
    TokenLeavesForGood(s, token, task, more);
    if HoldsNothing(s.db, token) {
      DeadTokenForever(s, more, token);
    }
  }

  // ---- One agent's part in a run -------------------------------------------------------------

  /** What a statement or transaction tells the agent that issues it. */
  datatype Answer =
    | Rows(rows: nat)
    | Shown(invite: Option<Invite>)
    | Rejected(error: CommitError)
    | TurnedAway(refusal: SendError)
    | Known(id: Id)
    | Written

  function AnswerTo(s: State, a: Action): Answer {
    match a
    case TakeLease(task, token) => Rows(if token !in s.tokens && Leasable(s.db, task) then 1 else 0)
    case Heartbeat(task, token) => Rows(if Held(s.db, task, token) then 1 else 0)
    case GiveBack(task, token, _) => Rows(if Held(s.db, task, token) then 1 else 0)
    case GiveUp(task, token) => Rows(if Held(s.db, task, token) then 1 else 0)
    case Commit(task, token, reply) =>
      var r := TryCommit(s.db, task, token, reply);
      if r.Ok? then Written else Rejected(r.error)
    case Send(limit, draft) =>
      var r := Reserve(s.db, s.capacity, limit, draft);
      if r.Err? then TurnedAway(r.error) else if r.value.existing.Some? then Known(r.value.existing.value) else Written
    case Requeue(message) =>
      var r := RequeueWithAdmission(s.db, s.capacity, message);
      if r.Err? then TurnedAway(r.error) else Written
    case ReadIntent(session) => Shown(InviteOf(s.db, session))
    case _ => Written
  }

  /** One action of the agent and what it was answered. */
  datatype Statement = Statement(action: Action, answer: Answer)

  /** The agent's actions stand in the run, in order, each answered by the state in which it was taken. */
  ghost predicate IsPart(acts: seq<Statement>, places: seq<nat>, states: seq<State>, trace: seq<Action>) {
    |places| == |acts| && |states| == |trace| + 1 && forall i | 0 <= i < |acts| :: TakenThere(acts, places, i, states, trace)
  }

  ghost predicate TakenThere(acts: seq<Statement>, places: seq<nat>, i: nat, states: seq<State>, trace: seq<Action>)
    requires i < |acts| == |places| && |states| == |trace| + 1
  {
    && places[i] < |trace| && (i > 0 ==> places[i - 1] < places[i])
    && trace[places[i]] == acts[i].action && acts[i].answer == AnswerTo(states[places[i]], acts[i].action)
  }

  lemma PartGoesOn(acts: seq<Statement>, places: seq<nat>, states: seq<State>, trace: seq<Action>, a: Action, s: State)
    requires IsPart(acts, places, states, trace)
    ensures IsPart(acts, places, states + [s], trace + [a])
    ensures IsPart(acts + [Statement(a, AnswerTo(states[|trace|], a))], places + [|trace|], states + [s], trace + [a])
  {
    forall i | 0 <= i < |acts| ensures TakenThere(acts, places, i, states + [s], trace + [a]) {
      assert TakenThere(acts, places, i, states, trace);
    }
    var longer := acts + [Statement(a, AnswerTo(states[|trace|], a))];
    forall i | 0 <= i < |longer| ensures TakenThere(longer, places + [|trace|], i, states + [s], trace + [a]) {
      assert i < |acts| ==> TakenThere(acts, places, i, states, trace);
      assert 0 < i == |acts| ==> TakenThere(acts, places, i - 1, states, trace);
    }
  }

  /** The statements of an agent that is alone from this state on. */
  ghost predicate Replays(s: State, acts: seq<Statement>)
    decreases |acts|
  {
    acts == [] || (acts[0].answer == AnswerTo(s, acts[0].action) && Replays(Step(s, acts[0].action), acts[1..]))
  }

  /** As many places as actions leave no room for anyone else. */
  lemma {:induction false} AlonePlaces(acts: seq<Statement>, places: seq<nat>, states: seq<State>, trace: seq<Action>,
                                       n: nat, m: nat, i: nat)
    requires IsPart(acts, places, states, trace) && n <= i < |acts| && m <= |trace| && |trace| - m == |acts| - n
    requires places[n] >= m
    ensures places[i] == m + i - n
  {
    PlacesRise(acts, places, states, trace, n, i);
    PlacesRise(acts, places, states, trace, i, |acts| - 1);
    assert TakenThere(acts, places, |acts| - 1, states, trace);
  }

  lemma {:induction false} PlacesRise(acts: seq<Statement>, places: seq<nat>, states: seq<State>, trace: seq<Action>, i: nat, j: nat)
    requires IsPart(acts, places, states, trace) && i <= j < |acts|
    ensures places[j] >= places[i] + j - i
    decreases j
  {
    if i < j {
      PlacesRise(acts, places, states, trace, i, j - 1);
      assert TakenThere(acts, places, j, states, trace);
    }
  }

  lemma {:induction false} AloneReplays(capacity: int, acts: seq<Statement>, places: seq<nat>, states: seq<State>, trace: seq<Action>,
                                        n: nat, m: nat, i: nat)
    requires IsRun(capacity, states, trace) && IsPart(acts, places, states, trace)
    requires n <= i <= |acts| && m <= |trace| && |trace| - m == |acts| - n && (n < |acts| ==> places[n] >= m)
    ensures Replays(states[m + i - n], acts[i..])
    decreases |acts| - i
  {
    if i < |acts| {
      AlonePlaces(acts, places, states, trace, n, m, i);
      AloneReplays(capacity, acts, places, states, trace, n, m, i + 1);
      assert TakenThere(acts, places, i, states, trace) && IsStep(states, trace, m + i - n);
      assert acts[i..][1..] == acts[i + 1..];
    }
  }

  lemma StatesAreOnesOfAPrefix(capacity: int, states: seq<State>, trace: seq<Action>, states': seq<State>, trace': seq<Action>)
    requires IsRun(capacity, states, trace) && IsRun(capacity, states', trace') && trace <= trace'
    ensures states'[|trace|] == states[|trace|]
  {
    var first := states'[..|trace| + 1];
    forall i | 0 <= i < |trace| ensures IsStep(first, trace, i) {
      assert IsStep(states', trace', i);
    }
    StatesOfARun(capacity, states, trace);
    StatesOfARun(capacity, first, trace);
  }

  class Store {
    const capacity: int
    var state: State
    /** What the other agents do each time this one lets them. */
    var schedule: seq<seq<Action>>
    ghost var trace: seq<Action>
    ghost var states: seq<State>
    /** What this agent did and was answered, and where in the run. */
    ghost var acts: seq<Statement>
    ghost var places: seq<nat>

    /** Whatever was done here is a run of the protocol, and what this agent did is part of it. */
    ghost predicate Valid()
      reads this
    {
      && IsRun(capacity, states, trace) && state == states[|trace|] && state.capacity == capacity
      && IsPart(acts, places, states, trace)
    }

    /** The run went on; with nobody else around, by this agent's own actions. */
    twostate predicate Went()
      reads this
    {
      && Valid() && old(trace) <= trace && old(acts) <= acts && old(places) <= places
      && (|old(places)| < |places| ==> places[|old(places)|] >= |old(trace)|)
      && (old(schedule) == [] ==> schedule == [] && |trace| - |old(trace)| == |acts| - |old(acts)|)
    }

    constructor (capacity: int, schedule: seq<seq<Action>>)
      ensures Valid() && this.capacity == capacity && state == Init(capacity) && trace == [] && acts == []
      ensures this.schedule == schedule
    {
      this.capacity, this.schedule := capacity, schedule;
      state, trace, states, acts, places := Init(capacity), [], [Init(capacity)], [], [];
    }

    lemma StateIsReachable()
      requires Valid()
      ensures state == Run(Init(capacity), trace) && Inv(state)
    {
      StatesOfARun(capacity, states, trace);
      ReachableSatisfiesInv(capacity, trace);
    }

    /** With nobody else around, what an agent was told is what its own actions lead to. */
    twostate lemma AloneItReplays()
      requires old(Valid()) && Went() && old(schedule) == []
      ensures Replays(old(state), acts[|old(acts)|..])
    {
      StatesAreOnesOfAPrefix(capacity, old(states), old(trace), states, trace);
      AloneReplays(capacity, acts, places, states, trace, |old(acts)|, |old(trace)|, |old(acts)|);
    }

    /** One step of the run by another agent. */
    method Advance(a: Action)
      requires Valid()
      modifies this`state, this`trace, this`states
      ensures Valid() && trace == old(trace) + [a] && states == old(states) + [state] && state == Step(old(state), a)
    {
      RunGrows(capacity, states, trace, a);
      PartGoesOn(acts, places, states, trace, a, Step(state, a));
      StepKeepsFacts(state, a);
      state := Step(state, a);
      states, trace := states + [state], trace + [a];
    }

    /** This agent acts. */
    method Act(a: Action)
      requires Valid()
      modifies this`state, this`trace, this`states, this`acts, this`places
      ensures Went() && states == old(states) + [state] && state == Step(old(state), a) && FactsKept(old(state), state)
      ensures acts == old(acts) + [Statement(a, AnswerTo(old(state), a))]
    {
      RunGrows(capacity, states, trace, a);
      PartGoesOn(acts, places, states, trace, a, Step(state, a));
      StepKeepsFacts(state, a);
      acts, places := acts + [Statement(a, AnswerTo(state, a))], places + [|trace|];
      state := Step(state, a);
      states, trace := states + [state], trace + [a];
    }

    /** The other agents act. */
    method Others()
      requires Valid()
      modifies this`state, this`trace, this`states, this`schedule
      ensures Went() && old(states) <= states && FactsKept(old(state), state)
      ensures old(schedule) == [] ==> state == old(state)
    {
      if schedule != [] {
        var turn := schedule[0];
        schedule := schedule[1..];
        for i := 0 to |turn|
          invariant Valid() && old(trace) <= trace && old(states) <= states
        {
          Advance(turn[i]);
        }
        LaterFacts(capacity, old(states), old(trace), states, trace);
      }
    }

    /** The other agents act while this one holds a token. */
    method OthersAround(ghost task: Id, ghost token: Token)
      requires Valid() && OnlyOn(state, task, token)
      modifies this`state, this`trace, this`states, this`schedule
      ensures Went() && Later(old(state), state, task, token)
      ensures old(schedule) == [] ==> state == old(state)
    {
      Others();
      LaterInTheRun(capacity, old(states), old(trace), states, trace, task, token);
    }

    /** An action of the agent while it holds a token. */
    method ActHolding(a: Action, ghost task: Id, ghost token: Token)
      requires Valid() && OnlyOn(state, task, token)
      modifies this`state, this`trace, this`states, this`acts, this`places
      ensures Went() && state == Step(old(state), a) && Later(old(state), state, task, token)
      ensures acts == old(acts) + [Statement(a, AnswerTo(old(state), a))]
    {
      Act(a);
      LaterInTheRun(capacity, old(states), old(trace), states, trace, task, token);
    }

    /** The conditional update of a fresh token; a token is handed out once. */
    method TryLease(task: Id, token: Token) returns (rows: nat)
      requires Valid()
      modifies this`state, this`trace, this`states, this`acts, this`places
      ensures Went() && state == Step(old(state), TakeLease(task, token)) && FactsKept(old(state), state)
      ensures acts == old(acts) + [Statement(TakeLease(task, token), Rows(rows))]
      ensures rows == if token !in old(state.tokens) && Leasable(old(state.db), task) then 1 else 0
      ensures rows == 1 ==> HeldUntil(state.db, task, token, state.db.now + 30_000_000) && OnlyOn(state, task, token)
    {
      rows := if token in state.tokens then 0 else Lease(state.db, task, token).1;
      Act(TakeLease(task, token));
      if rows == 1 {
        StateIsReachable();
        OnlyOneHolder(state, token, task);
      }
    }

    method TryRenew(task: Id, token: Token) returns (rows: nat)
      requires Valid() && OnlyOn(state, task, token)
      modifies this`state, this`trace, this`states, this`acts, this`places
      ensures Went() && state == Step(old(state), Heartbeat(task, token)) && Later(old(state), state, task, token)
      ensures acts == old(acts) + [Statement(Heartbeat(task, token), Rows(rows))]
      ensures rows == if Held(old(state.db), task, token) then 1 else 0
      ensures if rows == 1 then HeldUntil(state.db, task, token, state.db.now + 30_000_000) else HoldsNothing(state.db, token)
    {
      rows := Renew(state.db, task, token).1;
      ActHolding(Heartbeat(task, token), task, token);
    }

    method TryGiveBack(task: Id, token: Token, runAfter: int) returns (rows: nat)
      requires Valid() && OnlyOn(state, task, token)
      modifies this`state, this`trace, this`states, this`acts, this`places
      ensures Went() && state == Step(old(state), GiveBack(task, token, runAfter))
      ensures Later(old(state), state, task, token) && HoldsNothing(state.db, token)
      ensures acts == old(acts) + [Statement(GiveBack(task, token, runAfter), Rows(rows))]
      ensures rows == if Held(old(state.db), task, token) then 1 else 0
    {
      rows := Retry(state.db, task, token, runAfter).1;
      ActHolding(GiveBack(task, token, runAfter), task, token);
    }

    method TryGiveUp(task: Id, token: Token) returns (rows: nat)
      requires Valid() && OnlyOn(state, task, token)
      modifies this`state, this`trace, this`states, this`acts, this`places
      ensures Went() && state == Step(old(state), GiveUp(task, token))
      ensures Later(old(state), state, task, token) && HoldsNothing(state.db, token)
      ensures acts == old(acts) + [Statement(GiveUp(task, token), Rows(rows))]
      ensures rows == if Held(old(state.db), task, token) then 1 else 0
    {
      rows := Fail(state.db, task, token).1;
      ActHolding(GiveUp(task, token), task, token);
    }

    /** The transaction that ends a turn; on any error nothing is written. */
    method TryCommitTurn(task: Id, token: Token, reply: Reply) returns (answer: Answer)
      requires Valid() && OnlyOn(state, task, token)
      modifies this`state, this`trace, this`states, this`acts, this`places
      ensures Went() && state == Step(old(state), Commit(task, token, reply)) && Later(old(state), state, task, token)
      ensures acts == old(acts) + [Statement(Commit(task, token, reply), answer)]
      ensures answer == Written || answer.Rejected?
      ensures answer == Written <==> TryCommit(old(state.db), task, token, reply).Ok?
      ensures answer.Rejected? ==> state == old(state) && WhyRefused(state, task, token, reply, answer.error)
      ensures answer == Written ==> TurnIsDone(old(state), state, task, token, reply)
    {
      StateIsReachable();
      CommitIsAnswered(state, task, token, reply);
      answer := AnswerTo(state, Commit(task, token, reply));
      ActHolding(Commit(task, token, reply), task, token);
    }
  }

  ghost predicate TurnIsDone(s: State, s': State, task: Id, token: Token, reply: Reply) {
    && HoldsNothing(s'.db, token) && task in s.db.tasks && task in s'.db.tasks
    && RepliesTo(s'.db, reply.id, s.db.tasks[task].message) && s'.db.tasks[task].status == Completed
  }

  ghost predicate WhyRefused(s: State, task: Id, token: Token, reply: Reply, error: CommitError) {
    match error
    case LeaseLost => HoldsNothing(s.db, token)
    case OfferTaken =>
      reply.offer && task in s.db.tasks && InviteOf(s.db, s.db.tasks[task].session) != Some(NotInvited)
    case DuplicateKey => !FreshIds(s.db, reply) || HoldsNothing(s.db, token)
  }

  lemma AcceptedCommit(s: State, task: Id, token: Token, reply: Reply)
    requires Inv(s) && OnlyOn(s, task, token) && TryCommit(s.db, task, token, reply).Ok?
    ensures TurnIsDone(s, Step(s, Commit(task, token, reply)), task, token, reply)
  {
    CommitShape(s.db, task, token, reply);
    TokenLeavesForGood(s, token, task, [Commit(task, token, reply)]);
    RunOneMore(s, [], Commit(task, token, reply));
    assert [] + [Commit(task, token, reply)] == [Commit(task, token, reply)];
  }

  lemma RefusedCommit(s: State, task: Id, token: Token, reply: Reply)
    requires Inv(s) && OnlyOn(s, task, token) && TryCommit(s.db, task, token, reply).Err?
    ensures WhyRefused(s, task, token, reply, TryCommit(s.db, task, token, reply).error)
  {
    TokenLeavesForGood(s, token, task, []);
    if task in s.db.tasks {
      var row := ReplyRow(s.db, task, reply);
      var db1 := InsertMessage(s.db, reply.id, row);
      if db1.Some? && InsertSources(db1.value, reply.id, reply.sources).Some? {
        SourcesTouchNothingElse(db1.value, reply.id, reply.sources);
      } else if FreshIds(s.db, reply) && Held(s.db, task, token) {
        assert TaskIsSound(s, s.db.tasks[task]);
        RunningTaskHasFreeKey(s, task);
        FreshSourcesInsert(db1.value, reply.id, reply.sources);
        assert false;
      }
    }
  }

  lemma CommitIsAnswered(s: State, task: Id, token: Token, reply: Reply)
    requires Inv(s) && OnlyOn(s, task, token)
    ensures var answer, s' := AnswerTo(s, Commit(task, token, reply)), Step(s, Commit(task, token, reply));
            && (answer == Written || answer.Rejected?)
            && (answer == Written <==> TryCommit(s.db, task, token, reply).Ok?)
            && (answer.Rejected? ==> s' == s && WhyRefused(s, task, token, reply, answer.error))
            && (answer == Written ==> TurnIsDone(s, s', task, token, reply))
  {
    if TryCommit(s.db, task, token, reply).Ok? {
      AcceptedCommit(s, task, token, reply);
    } else {
      RefusedCommit(s, task, token, reply);
    }
  }
}
