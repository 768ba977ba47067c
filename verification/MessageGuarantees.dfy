/** What the message protocol promises in every run, whoever acts and in whatever order. */
module MessageGuarantees {
  import opened Options
  import opened MessageTables
  import opened MessageProtocol
  import opened MessageInvariant

  lemma RunOneMore(s: State, trace: seq<Action>, a: Action)
    ensures Run(s, trace + [a]) == Step(Run(s, trace), a)
  {
    assert (trace + [a])[..|trace|] == trace;
  }

  lemma RunOfThree(s: State, a: Action, b: Action, c: Action)
    ensures Run(s, [a, b]) == Step(Step(s, a), b)
    ensures Run(s, [a, b, c]) == Step(Step(Step(s, a), b), c)
  {
    assert [] + [a] == [a] && [a] + [b] == [a, b] && [a, b] + [c] == [a, b, c];
    RunOneMore(s, [], a);
    RunOneMore(s, [a], b);
    RunOneMore(s, [a, b], c);
  }

  lemma {:induction false} RunInTwo(s: State, first: seq<Action>, second: seq<Action>)
    ensures Run(s, first + second) == Run(Run(s, first), second)
    decreases |second|
  {
    if second == [] {
      assert first + second == first;
    } else {
      var rest := second[..|second| - 1];
      var a := second[|second| - 1];
      assert first + second == (first + rest) + [a] && second == rest + [a];
      RunInTwo(s, first, rest);
      RunOneMore(s, first + rest, a);
      RunOneMore(Run(s, first), rest, a);
    }
  }

  lemma ReachableSatisfiesInv(capacity: int, trace: seq<Action>)
    ensures Inv(Run(Init(capacity), trace))
  {
    InitSatisfiesInv(capacity);
    RunKeepsInv(Init(capacity), trace);
  }

  /**
    Exactly-once effects. Each message with a task has at most one reply, and the task is
    completed exactly when that reply exists; a message without a task has exactly one reply,
    the local refusal; nothing else answers anything.
  */
  lemma ExactlyOnceEffects(capacity: int, trace: seq<Action>, v: Id)
    requires v in Run(Init(capacity), trace).db.messages
    requires Run(Init(capacity), trace).db.messages[v].direction == Visitor
    ensures var db := Run(Init(capacity), trace).db;
            && (forall a, b | RepliesTo(db, a, v) && RepliesTo(db, b, v) :: a == b)
            && (forall j, k | TaskFor(db, j, v) && TaskFor(db, k, v) :: j == k)
            && (forall k | TaskFor(db, k, v) :: db.tasks[k].status == Completed <==> HasReply(db, v))
            && (!HasTask(db, v) ==> exists r :: RepliesTo(db, r, v) && db.messages[r].refusal)
            && (forall x <- db.sources :: IsReply(db, db.sources[x]))
  {
    ReachableSatisfiesInv(capacity, trace);
    var db := Run(Init(capacity), trace).db;
    if !HasTask(db, v) {
      assert HasReply(db, v);
      var r :| RepliesTo(db, r, v);
      assert db.messages[r].refusal;
    }
  }

  // ---- A lost lease --------------------------------------------------------------------------

  predicate HoldsNothing(db: Tables, token: Token) {
    forall k <- db.tasks :: db.tasks[k].leaseToken != Some(token)
  }

  lemma TokenStaysDead(s: State, a: Action, token: Token)
    requires token in s.tokens && HoldsNothing(s.db, token)
    ensures token in Step(s, a).tokens && HoldsNothing(Step(s, a).db, token)
  {
    var s' := Step(s, a);
    match a
    case Commit(task, t, reply) =>
      if TryCommit(s.db, task, t, reply).Ok? {
        CommitShape(s.db, task, t, reply);
      }
    case _ =>
  }

  lemma {:induction false} DeadTokenForever(s: State, trace: seq<Action>, token: Token)
    requires token in s.tokens && HoldsNothing(s.db, token)
    ensures token in Run(s, trace).tokens && HoldsNothing(Run(s, trace).db, token)
    decreases |trace|
  {
    if trace != [] {
      DeadTokenForever(s, trace[..|trace| - 1], token);
      TokenStaysDead(Run(s, trace[..|trace| - 1]), trace[|trace| - 1], token);
    }
  }

  /** The actions through which a worker uses its lease. */
  predicate UsesToken(a: Action, token: Token) {
    (a.Commit? || a.Heartbeat? || a.GiveBack? || a.GiveUp?) && a.token == token
  }

  /**
    Once a token is off every task, nothing its worker does later changes anything: no reply, no
    source, no invitation, no task row, whatever else happened in between.
  */
  lemma LostLeaseWritesNothing(s: State, trace: seq<Action>, token: Token, a: Action)
    requires token in s.tokens && HoldsNothing(s.db, token) && UsesToken(a, token)
    ensures Step(Run(s, trace), a) == Run(s, trace)
  {
    DeadTokenForever(s, trace, token);
    var s1 := Run(s, trace);
    match a
    case Commit(task, _, reply) =>
      if TryCommit(s1.db, task, token, reply).Ok? {
        CommitShape(s1.db, task, token, reply);
        assert false;
      }
    case Heartbeat(task, _) => assert !Held(s1.db, task, token);
    case GiveBack(task, _, _) => assert !Held(s1.db, task, token);
    case GiveUp(task, _) => assert !Held(s1.db, task, token);
    case _ =>
  }

  /** In a reachable state a worker whose task was taken away holds nothing at all, and never will again. */
  lemma LosingTheTaskKillsTheToken(s: State, token: Token, task: Id, trace: seq<Action>)
    requires Inv(s) && Held(s.db, task, token) && !Held(Run(s, trace).db, task, token)
    ensures HoldsNothing(Run(s, trace).db, token)
  {
    OnlyOneHolder(s, token, task);
    TokenLeavesForGood(s, token, task, trace);
  }

  lemma OnlyOneHolder(s: State, token: Token, task: Id)
    requires Inv(s) && Held(s.db, task, token)
    ensures token in s.tokens && forall k <- s.db.tasks | s.db.tasks[k].leaseToken == Some(token) :: k == task
  {
    assert TaskIsSound(s, s.db.tasks[task]);
    forall k <- s.db.tasks | s.db.tasks[k].leaseToken == Some(token) ensures k == task {
      assert TaskIsSound(s, s.db.tasks[k]);
      assert Clash(s.db, k, task);
    }
  }

  lemma {:induction false} TokenLeavesForGood(s: State, token: Token, task: Id, trace: seq<Action>)
    requires Inv(s) && token in s.tokens
    requires forall k <- s.db.tasks | s.db.tasks[k].leaseToken == Some(token) :: k == task
    ensures var s' := Run(s, trace);
            && token in s'.tokens
            && (forall k <- s'.db.tasks | s'.db.tasks[k].leaseToken == Some(token) :: k == task)
            && (Held(s'.db, task, token) || HoldsNothing(s'.db, token))
    decreases |trace|
  {
    if trace == [] {
      if task in s.db.tasks {
        assert TaskIsSound(s, s.db.tasks[task]);
      }
    } else {
      var s1 := Run(s, trace[..|trace| - 1]);
      var a := trace[|trace| - 1];
      TokenLeavesForGood(s, token, task, trace[..|trace| - 1]);
      RunKeepsInv(s, trace);
      TokensOnlyLeave(s1, a, token);
      if task in Run(s, trace).db.tasks {
        assert TaskIsSound(Run(s, trace), Run(s, trace).db.tasks[task]);
      }
    }
  }

  /** An issued token is never put on a task again. */
  lemma TokensOnlyLeave(s: State, a: Action, token: Token)
    requires token in s.tokens
    ensures var s' := Step(s, a);
            && token in s'.tokens
            && forall k <- s'.db.tasks | s'.db.tasks[k].leaseToken == Some(token) ::
                 k in s.db.tasks && s.db.tasks[k].leaseToken == Some(token)
  {
    match a
    case Commit(task, t, reply) =>
      if TryCommit(s.db, task, t, reply).Ok? {
        CommitShape(s.db, task, t, reply);
      }
    case _ =>
  }

  // ---- A lease that is held ------------------------------------------------------------------

  lemma TimeNeverGoesBack(s: State, a: Action)
    ensures s.db.now <= Step(s, a).db.now
  {
    if a.Commit? && TryCommit(s.db, a.task, a.token, a.reply).Ok? {
      CommitShape(s.db, a.task, a.token, a.reply);
    }
  }

  /** The task is held under this token until at least this time. */
  predicate HeldUntil(db: Tables, task: Id, token: Token, until: int) {
    Held(db, task, token) && db.tasks[task].leaseExpiresAt == Some(until)
  }

  lemma OtherCommitsLeaveALiveLease(s: State, task: Id, token: Token, until: int, other: Id, t: Token, reply: Reply)
    requires HeldUntil(s.db, task, token, until) && t != token
    ensures HeldUntil(Step(s, Commit(other, t, reply)).db, task, token, until)
  {
    if TryCommit(s.db, other, t, reply).Ok? {
      CommitShape(s.db, other, t, reply);
    }
  }

  lemma SendsLeaveALiveLease(s: State, a: Action, task: Id, token: Token, until: int)
    requires HeldUntil(s.db, task, token, until) && (a.Send? || a.Requeue?)
    ensures HeldUntil(Step(s, a).db, task, token, until)
  {
    StepKeepsFacts(s, a);
  }

  lemma OthersLeaveALiveLease(s: State, a: Action, task: Id, token: Token, until: int)
    requires HeldUntil(s.db, task, token, until) && !UsesToken(a, token) && s.db.now < until
    ensures HeldUntil(Step(s, a).db, task, token, until)
  {
    if a.Commit? {
      OtherCommitsLeaveALiveLease(s, task, token, until, a.task, a.token, a.reply);
    } else if a.Send? || a.Requeue? {
      SendsLeaveALiveLease(s, a, task, token, until);
    }
  }

  /** Before it expires nobody takes a lease away: only its own worker ends it. */
  lemma {:induction false} LiveLeaseIsNotTaken(s: State, trace: seq<Action>, task: Id, token: Token, until: int)
    requires HeldUntil(s.db, task, token, until) && forall a <- trace :: !UsesToken(a, token)
    requires Run(s, trace).db.now < until
    ensures HeldUntil(Run(s, trace).db, task, token, until)
    decreases |trace|
  {
    if trace != [] {
      var rest, a := trace[..|trace| - 1], trace[|trace| - 1];
      assert (forall b <- rest :: b in trace) && a in trace;
      TimeNeverGoesBack(Run(s, rest), a);
      LiveLeaseIsNotTaken(s, rest, task, token, until);
      OthersLeaveALiveLease(Run(s, rest), a, task, token, until);
    }
  }

  /**
    A lease goes to a task that is due, whose session has nothing running and nothing unfinished
    before it; it uses up one attempt and lasts for the lease time, as does every renewal.
  */
  lemma LeaseTakesTheOldest(s: State, task: Id, token: Token)
    requires Inv(s) && token !in s.tokens && Held(Step(s, TakeLease(task, token)).db, task, token)
    ensures var s' := Step(s, TakeLease(task, token));
            && HeldUntil(s'.db, task, token, s.db.now + 30_000_000)
            && s'.db.tasks[task].attempts == s.db.tasks[task].attempts + 1 <= 5
            && s.db.tasks[task].runAfter <= s.db.now
            && forall k <- s'.db.tasks | k != task && s'.db.tasks[k].session == s'.db.tasks[task].session ::
                 && s'.db.tasks[k].status != Processing
                 && (Before(s.db, s'.db.tasks[k].message, s'.db.tasks[task].message) ==> Terminal(s'.db.tasks[k].status))
  {
    assert task in s.db.tasks ==> TaskIsSound(s, s.db.tasks[task]);
  }

  /** Older, or of the same second with a smaller id. */
  predicate Precedes(db: Tables, a: Id, b: Id)
    requires a in db.messages && b in db.messages
  {
    var first, second := db.messages[a].createdAt, db.messages[b].createdAt;
    first < second || (first == second && a < b)
  }

  /** A lease is given exactly for a waiting task that is due, while its session has nothing running and nothing older unfinished. */
  lemma LeaseIsGivenExactlyWhen(s: State, task: Id, token: Token)
    requires Inv(s) && token !in s.tokens
    ensures (forall k <- s.db.tasks :: s.db.tasks[k].message in s.db.messages)
    ensures Held(Step(s, TakeLease(task, token)).db, task, token) <==>
              && task in s.db.tasks && s.db.tasks[task].status in {Queued, RetryWait} && s.db.tasks[task].runAfter <= s.db.now
              && forall k <- s.db.tasks | s.db.tasks[k].session == s.db.tasks[task].session ::
                   && s.db.tasks[k].status != Processing
                   && (s.db.tasks[k].status in {Queued, RetryWait} ==> !Precedes(s.db, s.db.tasks[k].message, s.db.tasks[task].message))
  {
    forall k <- s.db.tasks ensures s.db.tasks[k].message in s.db.messages {
      assert TaskIsSound(s, s.db.tasks[k]);
    }
    assert task in s.db.tasks ==> TaskIsSound(s, s.db.tasks[task]);
    assert Held(Step(s, TakeLease(task, token)).db, task, token) <==> Leasable(s.db, task);
  }

  // ---- When a turn commits -------------------------------------------------------------------

  lemma {:induction false} FreshSourcesInsert(db: Tables, reply: Id, ids: seq<Id>)
    requires reply in db.messages
    requires forall i | 0 <= i < |ids| :: ids[i] !in db.sources
    requires forall i, j | 0 <= i < j < |ids| :: ids[i] != ids[j]
    ensures InsertSources(db, reply, ids).Some?
    decreases |ids|
  {
    if ids != [] {
      FreshSourcesInsert(db.(sources := db.sources[ids[0] := reply]), reply, ids[1..]);
    }
  }

  /** The client key of a running task's message is still free on the assistant side. */
  lemma RunningTaskHasFreeKey(s: State, task: Id)
    requires Inv(s) && task in s.db.tasks && s.db.tasks[task].status == Processing
    ensures var t := s.db.tasks[task]; !ClientKeyTaken(s.db, t.session, Assistant, ClientOf(s.db, t.message))
  {
    var db := s.db;
    var t := db.tasks[task];
    assert TaskIsSound(s, t);
    var client := ClientOf(db, t.message);
    forall id <- db.messages | db.messages[id].direction == Assistant && db.messages[id].session == t.session
      ensures client.Some? ==> db.messages[id].client != client
    {
      assert AnswersAVisitor(db, id);
      if client.Some? && db.messages[id].client == client {
        assert SameClientKey(db, db.messages[id].replyTo.value, t.message);
        assert RepliesTo(db, id, t.message);
        assert false;
      }
    }
  }

  predicate FreshIds(db: Tables, reply: Reply) {
    && reply.id !in db.messages
    && (forall i | 0 <= i < |reply.sources| :: reply.sources[i] !in db.sources)
    && (forall i, j | 0 <= i < j < |reply.sources| :: reply.sources[i] != reply.sources[j])
  }

  /** With fresh ids, only a lost lease or an invitation that is no longer open stops a commit. */
  lemma CommitSucceedsExactlyWhen(s: State, task: Id, token: Token, reply: Reply)
    requires Inv(s) && FreshIds(s.db, reply)
    ensures TryCommit(s.db, task, token, reply).Ok?
            <==> Held(s.db, task, token) && (reply.offer ==> InviteOf(s.db, s.db.tasks[task].session) == Some(NotInvited))
  {
    if TryCommit(s.db, task, token, reply).Ok? {
      CommitShape(s.db, task, token, reply);
    } else if Held(s.db, task, token) && (reply.offer ==> InviteOf(s.db, s.db.tasks[task].session) == Some(NotInvited)) {
      assert TaskIsSound(s, s.db.tasks[task]);
      RunningTaskHasFreeKey(s, task);
      var db1 := InsertMessage(s.db, reply.id, ReplyRow(s.db, task, reply)).value;
      FreshSourcesInsert(db1, reply.id, reply.sources);
      SourcesTouchNothingElse(db1, reply.id, reply.sources);
      assert false;
    }
  }

  // ---- What is never undone ------------------------------------------------------------------

  /** Messages never change, a completed task is final, and no message gets a task after it was written. */
  ghost predicate FactsKept(s: State, s': State) {
    && s.db.messages.Keys <= s'.db.messages.Keys
    && (forall id <- s.db.messages :: s'.db.messages[id] == s.db.messages[id])
    && s.db.tasks.Keys <= s'.db.tasks.Keys
    && (forall k <- s.db.tasks ::
          && s'.db.tasks[k].message == s.db.tasks[k].message
          && (s.db.tasks[k].status == Completed ==> s'.db.tasks[k] == s.db.tasks[k]))
    && (forall k <- s'.db.tasks | k !in s.db.tasks :: s'.db.tasks[k].message !in s.db.messages)
    && s'.capacity == s.capacity
  }

  lemma CommitKeepsFacts(s: State, task: Id, token: Token, reply: Reply)
    ensures FactsKept(s, Step(s, Commit(task, token, reply)))
  {
    if TryCommit(s.db, task, token, reply).Ok? {
      CommitShape(s.db, task, token, reply);
    }
  }

  lemma SendKeepsFacts(s: State, limit: int, draft: Draft)
    ensures FactsKept(s, Step(s, Send(limit, draft)))
  {
  }

  lemma RequeueKeepsFacts(s: State, message: Id)
    ensures FactsKept(s, Step(s, Requeue(message)))
  {
  }

  lemma RecoveryKeepsFacts(s: State)
    ensures FactsKept(s, Step(s, RecoverLeases))
  {
  }

  lemma OtherStepKeepsFacts(s: State, a: Action)
    requires !a.Commit? && !a.Send? && !a.Requeue? && !a.RecoverLeases?
    ensures FactsKept(s, Step(s, a))
  {
  }

  lemma StepKeepsFacts(s: State, a: Action)
    ensures FactsKept(s, Step(s, a))
  {
    match a
    case Commit(task, token, reply) => CommitKeepsFacts(s, task, token, reply);
    case Send(limit, draft) => SendKeepsFacts(s, limit, draft);
    case Requeue(message) => RequeueKeepsFacts(s, message);
    case RecoverLeases => RecoveryKeepsFacts(s);
    case _ => OtherStepKeepsFacts(s, a);
  }

  /** What was written stays, over every run. */
  lemma {:induction false} FactsAreNeverUndone(s: State, trace: seq<Action>)
    ensures FactsKept(s, Run(s, trace))
    decreases |trace|
  {
    if trace != [] {
      FactsAreNeverUndone(s, trace[..|trace| - 1]);
      StepKeepsFacts(Run(s, trace[..|trace| - 1]), trace[|trace| - 1]);
    }
  }

  // ---- Client retries ------------------------------------------------------------------------

  /** However often a client resends, one key names one message, one task and one reply. */
  lemma ClientKeyNamesOneTurn(capacity: int, trace: seq<Action>, session: Session, client: ClientKey)
    ensures var db := Run(Init(capacity), trace).db;
            && (forall a, b | SentAs(db, a, session, client) && SentAs(db, b, session, client) :: a == b)
            && (forall a, j, k | SentAs(db, a, session, client) && TaskFor(db, j, a) && TaskFor(db, k, a) :: j == k)
            && (forall r, q | && IsReply(db, r) && db.messages[r].session == session && db.messages[r].client == Some(client)
                              && IsReply(db, q) && db.messages[q].session == session && db.messages[q].client == Some(client)
                            :: r == q)
  {
    ReachableSatisfiesInv(capacity, trace);
    var db := Run(Init(capacity), trace).db;
    forall a, b | SentAs(db, a, session, client) && SentAs(db, b, session, client) ensures a == b {
      assert SameClientKey(db, a, b);
    }
    forall r, q | && IsReply(db, r) && db.messages[r].session == session && db.messages[r].client == Some(client)
                  && IsReply(db, q) && db.messages[q].session == session && db.messages[q].client == Some(client)
      ensures r == q
    {
      assert SameClientKey(db, r, q);
    }
  }

  /** From the first acceptance on, every resend writes nothing and is answered with the first message. */
  lemma ResendIsAnsweredByTheFirst(s: State, trace: seq<Action>, id: Id, session: Session, client: ClientKey,
                                   limit: int, draft: Draft)
    requires Inv(s) && SentAs(s.db, id, session, client)
    requires draft.session == session && draft.client == Some(client)
    ensures var s' := Run(s, trace); Reserve(s'.db, s'.capacity, limit, draft) == Ok(Reserved(s'.db, Some(id)))
  {
    FactsAreNeverUndone(s, trace);
    RunKeepsInv(s, trace);
    var db := Run(s, trace).db;
    assert SentAs(db, id, session, client);
    var found := FindByClient(db, session, client);
    assert SameClientKey(db, found.value, id);
  }

  // ---- Message limit -------------------------------------------------------------------------

  lemma OnlySendsAddVisitorMessages(s: State, a: Action, session: Session)
    requires !(a.Send? && a.draft.session == session)
    ensures VisitorMessages(Step(s, a).db, session) == VisitorMessages(s.db, session)
  {
    if a.Commit? && TryCommit(s.db, a.task, a.token, a.reply).Ok? {
      CommitShape(s.db, a.task, a.token, a.reply);
    }
  }

  lemma SendKeepsLimit(s: State, limit: int, draft: Draft, bound: nat)
    requires limit <= bound && |VisitorMessages(s.db, draft.session)| <= bound
    ensures |VisitorMessages(Step(s, Send(limit, draft)).db, draft.session)| <= bound
  {
    var before, after := VisitorMessages(s.db, draft.session), VisitorMessages(Step(s, Send(limit, draft)).db, draft.session);
    SubsetIsNotLarger(after, before + {draft.id});
    if |before| >= limit {
      assert after == before;
    }
  }

  /** However they are sent, a session never holds more visitor messages than the limit its senders read. */
  lemma {:induction false} SessionNeverExceedsLimit(capacity: int, trace: seq<Action>, session: Session, bound: nat)
    requires forall a <- trace | a.Send? && a.draft.session == session :: a.limit <= bound
    ensures |VisitorMessages(Run(Init(capacity), trace).db, session)| <= bound
    decreases |trace|
  {
    if trace == [] {
      assert VisitorMessages(Init(capacity).db, session) == {};
    } else {
      var rest, a := trace[..|trace| - 1], trace[|trace| - 1];
      assert (forall b <- rest :: b in trace) && a in trace;
      SessionNeverExceedsLimit(capacity, rest, session, bound);
      if a.Send? && a.draft.session == session {
        SendKeepsLimit(Run(Init(capacity), rest), a.limit, a.draft, bound);
      } else {
        OnlySendsAddVisitorMessages(Run(Init(capacity), rest), a, session);
      }
    }
  }

  // ---- Who lets tasks in ---------------------------------------------------------------------

  /** Only sends and requeues let tasks into the queue. */
  lemma OnlyAdmissionsLetIn(s: State, a: Action)
    requires !a.Requeue? && !(a.Send? && a.draft.route.ToAgent?)
    ensures ActiveTasks(Step(s, a).db) <= ActiveTasks(s.db)
  {
    if a.Commit? && TryCommit(s.db, a.task, a.token, a.reply).Ok? {
      CommitShape(s.db, a.task, a.token, a.reply);
    }
  }

  // ---- Queue capacity ------------------------------------------------------------------------

  lemma QueueNeverOverflows(capacity: int, trace: seq<Action>)
    ensures |ActiveTasks(Run(Init(capacity), trace).db)| <= if capacity < 0 then 0 else capacity
  {
    ReachableSatisfiesInv(capacity, trace);
    FactsAreNeverUndone(Init(capacity), trace);
  }

  /** The bound rests on counting under the lock: a count from an earlier snapshot lets two tasks into a queue of one. */
  lemma StaleCountOverflows()
    ensures var s := Run(Init(1), [Send(9, Draft(1, 1, None, ToAgent(1)))]);
            var r := ReserveCounting(s.db, 1, 0, 9, Draft(2, 2, None, ToAgent(2)));
            r.Ok? && |ActiveTasks(r.value.db)| == 2
  {
    var a := Send(9, Draft(1, 1, None, ToAgent(1)));
    var s := Run(Init(1), [a]);
    RunOneMore(Init(1), [], a);
    assert [] + [a] == [a];
    assert ActiveTasks(Init(1).db) == {} && VisitorMessages(Init(1).db, 1) == {};
    var m1 := Message(1, Visitor, None, None, false, 0);
    assert s.db.messages == map[1 := m1];
    assert ActiveTasks(s.db) == {1} && VisitorMessages(s.db, 2) == {};
    var r := ReserveCounting(s.db, 1, 0, 9, Draft(2, 2, None, ToAgent(2)));
    assert ActiveTasks(r.value.db) == {1, 2};
  }
}
