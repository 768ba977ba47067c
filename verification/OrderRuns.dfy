/** Two runs in which a reply is written before an earlier message of its session has been answered. */
module OrderRuns {
  import opened Options
  import opened MessageTables
  import opened MessageProtocol
  import opened MessageGuarantees
  import opened SessionOrder

  function ToSend(id: Id): Action {
    Send(9, Draft(id, 1, None, ToAgent(id)))
  }

  const ANSWER := Commit(2, 2, Reply(10, [], false, false))

  const ASKED := Message(1, Visitor, None, None, false, 0)

  function Waiting(id: Id): Task {
    Task(id, 1, Queued, 0, MAX_ATTEMPTS, 0, None, None)
  }

  function Started(id: Id): Task {
    Task(id, 1, Processing, 1, MAX_ATTEMPTS, 0, Some(id), Some(LEASE_DURATION))
  }

  function GivenUp(id: Id): Task {
    Task(id, 1, Failed, 1, MAX_ATTEMPTS, 0, None, None)
  }

  /** The tasks of one session that has asked once for each of them. */
  function With(tasks: map<Id, Task>, tokens: set<Token>): State {
    State(Tables(map id | id in tasks :: ASKED, tasks, map[], map[], 0), 9, tokens, {}, [])
  }

  /** Message 2 has been answered, and message 1 of the same session, which comes before it, is unfinished. */
  ghost predicate OutOfOrder(s: State) {
    && RepliesTo(s.db, 10, 2) && 1 in s.db.tasks && 2 in s.db.tasks
    && s.db.tasks[2].status == Completed && 1 in Early(s.db, 2)
  }

  lemma Sent(tasks: map<Id, Task>, tokens: set<Token>, id: Id)
    requires id !in tasks && |tasks| < 9 && forall k <- tasks :: tasks[k].message == k
    ensures Step(With(tasks, tokens), ToSend(id)) == With(tasks[id := Waiting(id)], tokens)
  {
    var db, sent := With(tasks, tokens).db, With(tasks[id := Waiting(id)], tokens).db;
    SubsetIsNotLarger(VisitorMessages(db, 1), tasks.Keys);
    SubsetIsNotLarger(ActiveTasks(db), tasks.Keys);
    assert db.messages[id := ASKED] == sent.messages;
    assert InsertMessage(db, id, ASKED) == Some(db.(messages := sent.messages));
    assert InsertTask(db.(messages := sent.messages), id, id, 1, 0) == Some(sent);
  }

  lemma Leased(tasks: map<Id, Task>, tokens: set<Token>, id: Id)
    requires id in tasks && tasks[id] == Waiting(id) && id !in tokens
    requires forall k <- tasks | k != id :: tasks[k].status == Failed
    ensures Step(With(tasks, tokens), TakeLease(id, id)) == With(tasks[id := Started(id)], tokens + {id})
  {
    assert Leasable(With(tasks, tokens).db, id);
  }

  lemma ThenLeased(tasks: map<Id, Task>, tokens: set<Token>, id: Id)
    requires id !in tasks && id !in tokens && forall k <- tasks :: tasks[k] == GivenUp(k)
    ensures Step(With(tasks[id := Waiting(id)], tokens), TakeLease(id, id)) == With(tasks[id := Started(id)], tokens + {id})
  {
    Leased(tasks[id := Waiting(id)], tokens, id);
    assert tasks[id := Waiting(id)][id := Started(id)] == tasks[id := Started(id)];
  }

  /** Message 1 waits before message 2, whose task is answered. */
  lemma Answered(tokens: set<Token>)
    ensures OutOfOrder(Step(With(map[1 := Waiting(1), 2 := Started(2)], tokens), ANSWER))
  {
    var s := With(map[1 := Waiting(1), 2 := Started(2)], tokens);
    assert Held(s.db, 2, 2);
    assert InsertMessage(s.db, 10, Message(1, Assistant, None, Some(2), false, 0)).Some?;
  }

  const SECOND_STARTS := [ToSend(2), TakeLease(2, 2)]

  /** While task 2 runs, message 1 is accepted within the same second. */
  const OVERTAKEN := [ToSend(2), TakeLease(2, 2), ToSend(1), ANSWER]

  lemma LaterMessageOvertakes()
    ensures OutOfOrder(Run(Init(9), OVERTAKEN)) && ComesBefore(Run(Init(9), OVERTAKEN[..2]), OVERTAKEN[2], 2)
  {
    SecondStarts();
    FirstComesBefore();
    Answered({2});
    assert OVERTAKEN[..2] == SECOND_STARTS && OVERTAKEN == SECOND_STARTS + [ToSend(1)] + [ANSWER];
    RunOneMore(Init(9), SECOND_STARTS, ToSend(1));
    RunOneMore(Init(9), SECOND_STARTS + [ToSend(1)], ANSWER);
  }

  lemma SecondStarts()
    ensures Run(Init(9), SECOND_STARTS) == With(map[2 := Started(2)], {2})
  {
    assert Init(9) == With(map[], {}) && map[][2 := Started(2)] == map[2 := Started(2)] && {} + {2} == {2};
    SecondIsLeased(map[], {});
    RunOfThree(Init(9), ToSend(2), TakeLease(2, 2), ANSWER);
  }

  lemma FirstComesBefore()
    ensures var s := With(map[2 := Started(2)], {2});
            Step(s, ToSend(1)) == With(map[1 := Waiting(1), 2 := Started(2)], {2}) && ComesBefore(s, ToSend(1), 2)
  {
    Sent(map[2 := Started(2)], {2}, 1);
    assert map[2 := Started(2)][1 := Waiting(1)] == map[1 := Waiting(1), 2 := Started(2)];
  }

  /** Message 2 is accepted, and its task leased. */
  lemma SecondIsLeased(tasks: map<Id, Task>, tokens: set<Token>)
    requires tasks == map[] || tasks == map[1 := GivenUp(1)]
    requires 2 !in tokens
    ensures Step(Step(With(tasks, tokens), ToSend(2)), TakeLease(2, 2)) == With(tasks[2 := Started(2)], tokens + {2})
  {
    assert |tasks| < 9 && forall k <- tasks :: tasks[k] == GivenUp(k);
    Sent(tasks, tokens, 2);
    ThenLeased(tasks, tokens, 2);
  }

  const FIRST_FAILS := [ToSend(1), TakeLease(1, 1), GiveUp(1, 1)]

  /** While task 2 runs, the failed task of message 1 is queued again. */
  const RETURNED := FIRST_FAILS + SECOND_STARTS + [Requeue(1)] + [ANSWER]

  lemma FirstFails()
    ensures Run(Init(9), FIRST_FAILS) == With(map[1 := GivenUp(1)], {1})
  {
    assert Init(9) == With(map[], {}) && map[][1 := Started(1)] == map[1 := Started(1)] && {} + {1} == {1};
    Sent(map[], {}, 1);
    ThenLeased(map[], {}, 1);
    GivesUp(With(map[1 := Started(1)], {1}));
    RunOfThree(Init(9), ToSend(1), TakeLease(1, 1), GiveUp(1, 1));
  }

  lemma GivesUp(s: State)
    requires s == With(map[1 := Started(1)], {1})
    ensures Step(s, GiveUp(1, 1)) == With(map[1 := GivenUp(1)], {1})
  {
    assert Held(s.db, 1, 1);
  }

  lemma FirstComesBack()
    ensures var s := With(map[1 := GivenUp(1), 2 := Started(2)], {1, 2});
            Step(s, Requeue(1)) == With(map[1 := Waiting(1), 2 := Started(2)], {1, 2}) && ComesBefore(s, Requeue(1), 2)
  {
    var s := With(map[1 := GivenUp(1), 2 := Started(2)], {1, 2});
    SubsetIsNotLarger(ActiveTasks(s.db), {2});
    assert Returns(s.db, 1, 2, 1);
  }

  lemma EarlierMessageReturns()
    ensures var more := FIRST_FAILS + SECOND_STARTS;
            OutOfOrder(Run(Init(9), RETURNED)) && ComesBefore(Run(Init(9), more), Requeue(1), 2)
  {
    FirstFails();
    SecondIsLeased(map[1 := GivenUp(1)], {1});
    assert map[1 := GivenUp(1)][2 := Started(2)] == map[1 := GivenUp(1), 2 := Started(2)];
    assert {1} + {2} == {1, 2};
    FirstComesBack();
    Answered({1, 2});
    RunInTwo(Init(9), FIRST_FAILS, SECOND_STARTS);
    RunOfThree(With(map[1 := GivenUp(1)], {1}), ToSend(2), TakeLease(2, 2), ANSWER);
    RunOneMore(Init(9), FIRST_FAILS + SECOND_STARTS, Requeue(1));
    RunOneMore(Init(9), FIRST_FAILS + SECOND_STARTS + [Requeue(1)], ANSWER);
  }
}
