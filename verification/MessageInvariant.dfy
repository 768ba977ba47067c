/** Every action of the message protocol keeps the invariant, hence so does every run. */
module MessageInvariant {
  import opened Options
  import opened MessageTables
  import opened MessageProtocol

  // ---- Actions that only change task rows ----------------------------------------------------

  ghost predicate SameIdentity(a: Task, b: Task) {
    a.message == b.message && a.session == b.session && (a.status == Completed <==> b.status == Completed)
  }

  /** Same messages, same task identities, and no task enters or leaves Completed. */
  ghost predicate OnlyTaskProgress(s: State, s': State) {
    && s'.db.messages == s.db.messages && s'.db.sources == s.db.sources && s'.db.intents == s.db.intents
    && s'.offers == s.offers && s'.seen == s.seen && s'.capacity == s.capacity && s.tokens <= s'.tokens
    && s'.db.tasks.Keys == s.db.tasks.Keys
    && forall k <- s.db.tasks :: SameIdentity(s.db.tasks[k], s'.db.tasks[k])
  }

  lemma RefusalsStayMatched(a: Tables, b: Tables)
    requires RefusalsMatch(a)
    requires a.messages.Keys <= b.messages.Keys && forall id <- a.messages :: b.messages[id] == a.messages[id]
    requires a.tasks.Keys <= b.tasks.Keys && forall k <- a.tasks :: b.tasks[k].message == a.tasks[k].message
    requires forall id <- b.messages | id !in a.messages && b.messages[id].direction == Assistant ::
               b.messages[id].refusal || (b.messages[id].replyTo.Some? && HasTask(b, b.messages[id].replyTo.value))
    ensures RefusalsMatch(b)
  {
    forall id <- b.messages | b.messages[id].direction == Assistant && b.messages[id].replyTo.Some?
      ensures HasTask(b, b.messages[id].replyTo.value) || b.messages[id].refusal
    {
      if id in a.messages && !a.messages[id].refusal {
        var k :| TaskFor(a, k, a.messages[id].replyTo.value);
        assert TaskFor(b, k, a.messages[id].replyTo.value);
      }
    }
  }

  lemma SameMessagesSameReplies(a: Tables, b: Tables)
    requires a.messages == b.messages
    ensures forall v :: HasReply(a, v) == HasReply(b, v)
  {
    forall v ensures HasReply(a, v) == HasReply(b, v) {
      if r :| RepliesTo(a, r, v) {
        assert RepliesTo(b, r, v);
      }
      if r :| RepliesTo(b, r, v) {
        assert RepliesTo(a, r, v);
      }
    }
  }

  lemma ProgressKeepsReplies(s: State, s': State)
    requires OnlyTaskProgress(s, s')
    requires RepliesAreSound(s.db) && SourcesAreSound(s.db) && ClientKeysAreUnique(s.db)
    ensures RepliesAreSound(s'.db) && SourcesAreSound(s'.db) && ClientKeysAreUnique(s'.db)
  {
    forall a, b, v | RepliesTo(s'.db, a, v) && RepliesTo(s'.db, b, v) ensures a == b {
      assert RepliesTo(s.db, a, v) && RepliesTo(s.db, b, v);
    }
    forall a, b | SameClientKey(s'.db, a, b) ensures a == b {
      assert SameClientKey(s.db, a, b);
    }
    forall id <- s'.db.messages | s'.db.messages[id].direction == Assistant ensures AnswersAVisitor(s'.db, id) {
      assert AnswersAVisitor(s.db, id);
    }
    forall x <- s'.db.sources ensures IsReply(s'.db, s'.db.sources[x]) {
      assert IsReply(s.db, s.db.sources[x]);
    }
  }

  lemma ProgressKeepsEffects(s: State, s': State)
    requires OnlyTaskProgress(s, s') && EffectsMatch(s.db) && InvitationsMatch(s)
    ensures EffectsMatch(s'.db) && InvitationsMatch(s')
  {
    SameMessagesSameReplies(s.db, s'.db);
    forall k <- s'.db.tasks ensures s'.db.tasks[k].status == Completed <==> HasReply(s'.db, s'.db.tasks[k].message) {
      assert SameIdentity(s.db.tasks[k], s'.db.tasks[k]);
    }
    forall v <- s'.db.messages | s'.db.messages[v].direction == Visitor ensures HasTask(s'.db, v) || HasReply(s'.db, v) {
      if k :| TaskFor(s.db, k, v) {
        assert SameIdentity(s.db.tasks[k], s'.db.tasks[k]) && TaskFor(s'.db, k, v);
      }
    }
    forall session ensures StillNotInvited(s'.db, session) == StillNotInvited(s.db, session) {}
  }

  /** A task that runs afterwards already ran before, with the same token. */
  ghost predicate Quieter(a: Task, b: Task) {
    b.status == Processing ==> a.status == Processing && a.leaseToken == b.leaseToken && a.session == b.session
  }

  lemma QuieterKeepsExclusion(a: Tables, b: Tables)
    requires LeasesAreExclusive(a) && b.tasks.Keys == a.tasks.Keys
    requires forall k <- a.tasks :: Quieter(a.tasks[k], b.tasks[k])
    ensures LeasesAreExclusive(b)
  {
    forall j, k | Clash(b, j, k) ensures j == k {
      assert Quieter(a.tasks[j], b.tasks[j]) && Quieter(a.tasks[k], b.tasks[k]);
      assert Clash(a, j, k);
    }
  }

  lemma ProgressKeepsTasks(s: State, s': State)
    requires OnlyTaskProgress(s, s') && TasksAreSound(s)
    requires forall k <- s'.db.tasks :: TaskIsSound(s', s'.db.tasks[k])
    ensures TasksAreSound(s')
  {
    forall j, k, message | TaskFor(s'.db, j, message) && TaskFor(s'.db, k, message) ensures j == k {
      assert SameIdentity(s.db.tasks[j], s'.db.tasks[j]) && SameIdentity(s.db.tasks[k], s'.db.tasks[k]);
      assert TaskFor(s.db, j, message) && TaskFor(s.db, k, message);
    }
  }

  lemma ActiveShrinks(s: State, s': State)
    requires WithinCapacity(s) && s'.capacity == s.capacity
    requires ActiveTasks(s'.db) <= ActiveTasks(s.db)
    ensures WithinCapacity(s')
  {
    SubsetIsNotLarger(ActiveTasks(s'.db), ActiveTasks(s.db));
  }

  lemma ProgressKeepsInv(s: State, s': State)
    requires Inv(s) && OnlyTaskProgress(s, s')
    requires forall k <- s'.db.tasks :: TaskIsSound(s', s'.db.tasks[k])
    requires LeasesAreExclusive(s'.db) && WithinCapacity(s')
    ensures Inv(s')
  {
    ProgressKeepsTasks(s, s');
    ProgressKeepsReplies(s, s');
    ProgressKeepsEffects(s, s');
    RefusalsStayMatched(s.db, s'.db) by {
      assert forall k <- s.db.tasks :: SameIdentity(s.db.tasks[k], s'.db.tasks[k]);
    }
  }

  lemma TakeLeaseKeepsExclusion(s: State, task: Id, token: Token)
    requires TasksAreSound(s) && LeasesAreExclusive(s.db) && token !in s.tokens
    ensures LeasesAreExclusive(Lease(s.db, task, token).0)
  {
    var db' := Lease(s.db, task, token).0;
    forall j, k | Clash(db', j, k) ensures j == k {
      if j != k {
        assert TaskIsSound(s, s.db.tasks[j]) && TaskIsSound(s, s.db.tasks[k]);
        assert Clash(s.db, j, k);
      }
    }
  }

  lemma TakeLeaseKeepsSoundness(s: State, task: Id, token: Token)
    requires TasksAreSound(s) && token !in s.tokens
    ensures var s' := Step(s, TakeLease(task, token)); forall k <- s'.db.tasks :: TaskIsSound(s', s'.db.tasks[k])
  {
    var s' := Step(s, TakeLease(task, token));
    forall k <- s'.db.tasks ensures TaskIsSound(s', s'.db.tasks[k]) {
      assert TaskIsSound(s, s.db.tasks[k]);
    }
  }

  lemma TakeLeaseIsProgress(s: State, task: Id, token: Token)
    ensures var s' := Step(s, TakeLease(task, token)); OnlyTaskProgress(s, s') && ActiveTasks(s'.db) <= ActiveTasks(s.db)
  {
  }

  lemma TakeLeaseKeepsInv(s: State, task: Id, token: Token)
    requires Inv(s)
    ensures Inv(Step(s, TakeLease(task, token)))
  {
    var s' := Step(s, TakeLease(task, token));
    if token !in s.tokens {
      TakeLeaseKeepsExclusion(s, task, token);
      TakeLeaseIsProgress(s, task, token);
      ActiveShrinks(s, s');
      TakeLeaseKeepsSoundness(s, task, token);
      ProgressKeepsInv(s, s');
    }
  }

  /** What the rows of a releasing or renewing action need: sound, no new runner, no new active task. */
  ghost predicate Releases(s: State, s': State) {
    && OnlyTaskProgress(s, s')
    && (forall k <- s'.db.tasks :: TaskIsSound(s', s'.db.tasks[k]))
    && (forall k <- s.db.tasks :: Quieter(s.db.tasks[k], s'.db.tasks[k]))
    && ActiveTasks(s'.db) <= ActiveTasks(s.db)
  }

  lemma ReleasingKeepsInv(s: State, s': State)
    requires Inv(s) && Releases(s, s')
    ensures Inv(s')
  {
    QuieterKeepsExclusion(s.db, s'.db);
    ActiveShrinks(s, s');
    ProgressKeepsInv(s, s');
  }

  lemma OneRowReleases(s: State, s': State, task: Id, row: Task)
    requires TasksAreSound(s) && task in s.db.tasks && s' == s.(db := s.db.(tasks := s.db.tasks[task := row]))
    requires SameIdentity(s.db.tasks[task], row) && Quieter(s.db.tasks[task], row) && TaskIsSound(s, row)
    requires !Terminal(s.db.tasks[task].status)
    ensures Releases(s, s')
  {
    forall k <- s'.db.tasks ensures TaskIsSound(s', s'.db.tasks[k]) {
      assert TaskIsSound(s, s.db.tasks[k]);
    }
  }

  lemma HolderStepReleases(s: State, a: Action)
    requires TasksAreSound(s) && (a.Heartbeat? || a.GiveBack? || a.GiveUp?)
    ensures Releases(s, Step(s, a))
  {
    if Held(s.db, a.task, a.token) {
      assert TaskIsSound(s, s.db.tasks[a.task]);
      OneRowReleases(s, Step(s, a), a.task, Step(s, a).db.tasks[a.task]);
    } else {
      assert Step(s, a) == s;
    }
  }

  /** Recovery touches exactly the leases that ran out: each task is due again at once, or has failed after its last attempt. */
  lemma RecoverReleases(s: State)
    requires TasksAreSound(s)
    ensures Releases(s, Step(s, RecoverLeases))
    ensures forall k <- s.db.tasks ::
              var t, t' := s.db.tasks[k], Step(s, RecoverLeases).db.tasks[k];
              if t.status == Processing && t.leaseExpiresAt.value <= s.db.now
              then && t'.leaseToken.None? && t'.attempts == t.attempts
                   && (if t.attempts < 5 then t'.status == RetryWait && t'.runAfter <= s.db.now else t'.status == Failed)
              else t' == t
  {
    var s' := Step(s, RecoverLeases);
    forall k <- s'.db.tasks ensures TaskIsSound(s', s'.db.tasks[k]) {
      assert TaskIsSound(s, s.db.tasks[k]);
    }
  }

  lemma RequeueKeepsCapacity(s: State, message: Id)
    requires TasksAreSound(s) && WithinCapacity(s)
    ensures WithinCapacity(Step(s, Requeue(message)))
  {
    var s' := Step(s, Requeue(message));
    if s' != s {
      if k :| TaskFor(s.db, k, message) {
        forall j <- ActiveTasks(s'.db) ensures j in ActiveTasks(s.db) + {k} {
          if s.db.tasks[j].message == message {
            assert TaskFor(s.db, j, message);
          }
        }
        SubsetIsNotLarger(ActiveTasks(s'.db), ActiveTasks(s.db) + {k});
      } else {
        forall j <- ActiveTasks(s'.db) ensures j in ActiveTasks(s.db) {
          assert !TaskFor(s.db, j, message);
        }
        ActiveShrinks(s, s');
      }
    }
  }

  lemma RequeueKeepsInv(s: State, message: Id)
    requires Inv(s)
    ensures Inv(Step(s, Requeue(message)))
  {
    var s' := Step(s, Requeue(message));
    if s' != s {
      forall k <- s'.db.tasks ensures TaskIsSound(s', s'.db.tasks[k]) {
        assert TaskIsSound(s, s.db.tasks[k]);
      }
      RequeueKeepsCapacity(s, message);
      QuieterKeepsExclusion(s.db, s'.db);
      ProgressKeepsInv(s, s');
    }
  }

  // ---- Actions that add messages -------------------------------------------------------------

  lemma InsertKeepsKeys(db: Tables, id: Id, m: Message)
    requires ClientKeysAreUnique(db) && SourcesAreSound(db) && InsertMessage(db, id, m).Some?
    ensures var db' := InsertMessage(db, id, m).value; ClientKeysAreUnique(db') && SourcesAreSound(db')
  {
    var db' := InsertMessage(db, id, m).value;
    forall a, b | SameClientKey(db', a, b) ensures a == b {
      if a != id && b != id {
        assert SameClientKey(db, a, b);
      }
    }
    forall x <- db'.sources ensures IsReply(db', db'.sources[x]) {
      assert IsReply(db, db.sources[x]);
    }
  }

  lemma NewIdHasNoReply(db: Tables, id: Id)
    requires RepliesAreSound(db) && id !in db.messages
    ensures !HasReply(db, id)
  {
    forall r <- db.messages | db.messages[r].direction == Assistant ensures db.messages[r].replyTo != Some(id) {
      assert AnswersAVisitor(db, r);
    }
  }

  lemma InsertVisitorKeepsReplies(db: Tables, id: Id, m: Message)
    requires RepliesAreSound(db) && InsertMessage(db, id, m).Some? && m.direction == Visitor
    ensures var db' := InsertMessage(db, id, m).value;
            RepliesAreSound(db') && !HasReply(db', id) && forall v :: HasReply(db', v) == HasReply(db, v)
  {
    var db' := InsertMessage(db, id, m).value;
    assert forall r, v :: RepliesTo(db', r, v) == RepliesTo(db, r, v);
    NewIdHasNoReply(db, id);
    forall v ensures HasReply(db', v) == HasReply(db, v) {
      if r :| RepliesTo(db, r, v) {
        assert RepliesTo(db', r, v);
      }
    }
    forall r <- db'.messages | db'.messages[r].direction == Assistant ensures AnswersAVisitor(db', r) {
      assert AnswersAVisitor(db, r);
    }
  }

  lemma InsertReplyKeepsReplies(db: Tables, id: Id, m: Message, visitor: Id)
    requires RepliesAreSound(db) && InsertMessage(db, id, m).Some?
    requires m.direction == Assistant && m.replyTo == Some(visitor) && visitor in db.messages
    requires var v := db.messages[visitor]; v.direction == Visitor && v.session == m.session && v.client == m.client
    requires !HasReply(db, visitor)
    ensures var db' := InsertMessage(db, id, m).value;
            RepliesAreSound(db') && forall v :: HasReply(db', v) <==> v == visitor || HasReply(db, v)
  {
    var db' := InsertMessage(db, id, m).value;
    assert RepliesTo(db', id, visitor);
    assert forall r, v | r != id :: RepliesTo(db', r, v) == RepliesTo(db, r, v);
    forall v ensures HasReply(db', v) <==> v == visitor || HasReply(db, v) {
      if r :| RepliesTo(db, r, v) {
        assert RepliesTo(db', r, v);
      }
    }
    forall r <- db'.messages | db'.messages[r].direction == Assistant ensures AnswersAVisitor(db', r) {
      if r != id {
        assert AnswersAVisitor(db, r);
      }
    }
  }

  lemma MoreMessagesKeepTasks(s: State, s': State)
    requires TasksAreSound(s) && s'.tokens == s.tokens && s'.db.tasks == s.db.tasks
    requires forall id <- s.db.messages :: id in s'.db.messages && s'.db.messages[id] == s.db.messages[id]
    ensures TasksAreSound(s')
  {
    forall k <- s'.db.tasks ensures TaskIsSound(s', s'.db.tasks[k]) {
      assert TaskIsSound(s, s.db.tasks[k]);
    }
    forall j, k, message | TaskFor(s'.db, j, message) && TaskFor(s'.db, k, message) ensures j == k {
      assert TaskFor(s.db, j, message) && TaskFor(s.db, k, message);
    }
  }

  lemma VisitorRowKeeps(s: State, s1: State, draft: Draft)
    requires Inv(s)
    requires s1 == s.(db := s1.db)
    requires InsertMessage(s.db, draft.id, VisitorRow(s.db, draft)) == Some(s1.db)
    ensures TasksAreSound(s1) && LeasesAreExclusive(s1.db) && RepliesAreSound(s1.db) && SourcesAreSound(s1.db)
    ensures ClientKeysAreUnique(s1.db) && WithinCapacity(s1) && InvitationsMatch(s1)
    ensures !HasReply(s1.db, draft.id) && !HasTask(s1.db, draft.id)
    ensures forall v :: HasReply(s1.db, v) == HasReply(s.db, v)
    ensures forall v :: HasTask(s1.db, v) == HasTask(s.db, v)
  {
    InsertKeepsKeys(s.db, draft.id, VisitorRow(s.db, draft));
    InsertVisitorKeepsReplies(s.db, draft.id, VisitorRow(s.db, draft));
    MoreMessagesKeepTasks(s, s1);
    forall j, k | Clash(s1.db, j, k) ensures j == k {
      assert Clash(s.db, j, k);
    }
    assert ActiveTasks(s1.db) == ActiveTasks(s.db);
    assert forall session :: StillNotInvited(s1.db, session) == StillNotInvited(s.db, session);
    forall v ensures HasTask(s1.db, v) == HasTask(s.db, v) {
      assert forall k :: TaskFor(s1.db, k, v) == TaskFor(s.db, k, v);
    }
    forall k ensures !TaskFor(s1.db, k, draft.id) {
      if k in s.db.tasks {
        assert TaskIsSound(s, s.db.tasks[k]);
      }
    }
  }

  lemma AgentDraftKeepsInv(s: State, s': State, task: Id, draft: Draft)
    requires Inv(s) && draft.route == ToAgent(task)
    requires s' == s.(db := s'.db) && WriteDraft(s.db, draft) == Some(s'.db)
    requires |ActiveTasks(s.db)| < s.capacity
    ensures Inv(s')
  {
    var s1 := s.(db := InsertMessage(s.db, draft.id, VisitorRow(s.db, draft)).value);
    VisitorRowKeeps(s, s1, draft);
    SameMessagesSameReplies(s1.db, s'.db);
    NewTaskKeepsSoundness(s1, s', task, draft);
    NewTaskKeepsEffects(s, s1, s', task, draft);
    NewTaskKeepsRest(s1, s', task, draft);
    SameMessagesKeepReplies(s1.db, s'.db);
    RefusalsStayMatched(s.db, s'.db);
    assert ActiveTasks(s1.db) == ActiveTasks(s.db);
  }

  lemma NewTaskKeepsRest(s1: State, s': State, task: Id, draft: Draft)
    requires InvitationsMatch(s1) && s' == s1.(db := s'.db)
    requires InsertTask(s1.db, task, draft.id, draft.session, s1.db.now) == Some(s'.db)
    requires forall v :: HasReply(s'.db, v) == HasReply(s1.db, v)
    ensures InvitationsMatch(s')
    ensures |ActiveTasks(s1.db)| < s1.capacity ==> WithinCapacity(s')
  {
    forall session ensures OffersTo(s'.offers, session) == if StillNotInvited(s'.db, session) then 0 else 1 {
      assert StillNotInvited(s'.db, session) == StillNotInvited(s1.db, session);
    }
    NewTaskIsActive(s1.db, s'.db, task, draft);
  }

  lemma NewTaskIsActive(a: Tables, b: Tables, task: Id, draft: Draft)
    requires InsertTask(a, task, draft.id, draft.session, a.now) == Some(b)
    ensures ActiveTasks(b) == ActiveTasks(a) + {task} && |ActiveTasks(b)| == |ActiveTasks(a)| + 1
  {
  }

  lemma SameMessagesKeepReplies(a: Tables, b: Tables)
    requires RepliesAreSound(a) && SourcesAreSound(a) && ClientKeysAreUnique(a)
    requires a.messages == b.messages && a.sources == b.sources
    ensures RepliesAreSound(b) && SourcesAreSound(b) && ClientKeysAreUnique(b)
  {
    forall x, y, v | RepliesTo(b, x, v) && RepliesTo(b, y, v) ensures x == y {
      assert RepliesTo(a, x, v) && RepliesTo(a, y, v);
    }
    forall x, y | SameClientKey(b, x, y) ensures x == y {
      assert SameClientKey(a, x, y);
    }
    forall id <- b.messages | b.messages[id].direction == Assistant ensures AnswersAVisitor(b, id) {
      assert AnswersAVisitor(a, id);
    }
    forall x <- b.sources ensures IsReply(b, b.sources[x]) {
      assert IsReply(a, a.sources[x]);
    }
  }

  lemma NewTaskKeepsSoundness(s1: State, s': State, task: Id, draft: Draft)
    requires TasksAreSound(s1) && LeasesAreExclusive(s1.db) && !HasTask(s1.db, draft.id)
    requires s' == s1.(db := s'.db) && InsertTask(s1.db, task, draft.id, draft.session, s1.db.now) == Some(s'.db)
    requires draft.id in s1.db.messages && s1.db.messages[draft.id].direction == Visitor
    requires s1.db.messages[draft.id].session == draft.session
    ensures TasksAreSound(s') && LeasesAreExclusive(s'.db)
  {
    forall k <- s'.db.tasks ensures TaskIsSound(s', s'.db.tasks[k]) {
      assert k != task ==> TaskIsSound(s1, s1.db.tasks[k]);
    }
    forall j, k, message | TaskFor(s'.db, j, message) && TaskFor(s'.db, k, message) ensures j == k {
      assert j != task ==> TaskFor(s1.db, j, message);
      assert k != task ==> TaskFor(s1.db, k, message);
    }
    forall j, k | Clash(s'.db, j, k) ensures j == k {
      assert Clash(s1.db, j, k);
    }
  }

  lemma NewTaskKeepsEffects(s: State, s1: State, s': State, task: Id, draft: Draft)
    requires EffectsMatch(s.db) && s'.db.messages.Keys == s.db.messages.Keys + {draft.id}
    requires s1.db.tasks == s.db.tasks && InsertTask(s1.db, task, draft.id, draft.session, s1.db.now) == Some(s'.db)
    requires forall id <- s.db.messages :: s'.db.messages[id] == s.db.messages[id]
    requires !HasReply(s'.db, draft.id) && forall v :: HasReply(s'.db, v) == HasReply(s.db, v)
    ensures EffectsMatch(s'.db)
  {
    forall v <- s'.db.messages | s'.db.messages[v].direction == Visitor ensures HasTask(s'.db, v) || HasReply(s'.db, v) {
      if v == draft.id {
        assert TaskFor(s'.db, task, v);
      } else if k :| TaskFor(s.db, k, v) {
        assert TaskFor(s'.db, k, v);
      } else {
        assert HasReply(s.db, v);
      }
    }
  }

  lemma RefusedDraftKeepsInv(s: State, s': State, reply: Id, draft: Draft)
    requires Inv(s) && draft.route == Refused(reply)
    requires s' == s.(db := s'.db) && WriteDraft(s.db, draft) == Some(s'.db)
    ensures Inv(s')
  {
    var s1 := s.(db := InsertMessage(s.db, draft.id, VisitorRow(s.db, draft)).value);
    VisitorRowKeeps(s, s1, draft);
    InsertKeepsKeys(s1.db, reply, RefusalRow(s.db, draft));
    InsertReplyKeepsReplies(s1.db, reply, RefusalRow(s.db, draft), draft.id);
    MoreMessagesKeepTasks(s1, s');
    RefusalKeepsEffects(s, s1, s', draft);
    RefusalsStayMatched(s.db, s'.db);
    forall j, k | Clash(s'.db, j, k) ensures j == k {
      assert Clash(s1.db, j, k);
    }
    assert ActiveTasks(s'.db) == ActiveTasks(s1.db);
    assert forall session :: StillNotInvited(s'.db, session) == StillNotInvited(s1.db, session);
  }

  lemma RefusalKeepsEffects(s: State, s1: State, s': State, draft: Draft)
    requires EffectsMatch(s.db) && s1.db.tasks == s.db.tasks == s'.db.tasks && !HasTask(s1.db, draft.id)
    requires s.db.messages.Keys <= s'.db.messages.Keys
    requires forall id <- s.db.messages :: s'.db.messages[id] == s.db.messages[id]
    requires forall id <- s'.db.messages | id !in s.db.messages && s'.db.messages[id].direction == Visitor :: id == draft.id
    requires forall v :: HasReply(s'.db, v) <==> v == draft.id || HasReply(s.db, v)
    ensures EffectsMatch(s'.db)
  {
    forall k <- s'.db.tasks ensures s'.db.tasks[k].status == Completed <==> HasReply(s'.db, s'.db.tasks[k].message) {
      assert !TaskFor(s1.db, k, draft.id);
    }
    forall v <- s'.db.messages | s'.db.messages[v].direction == Visitor ensures HasTask(s'.db, v) || HasReply(s'.db, v) {
      if v != draft.id && !HasReply(s.db, v) {
        var k :| TaskFor(s.db, k, v);
        assert TaskFor(s'.db, k, v);
      }
    }
  }

  lemma SendKeepsInv(s: State, limit: int, draft: Draft)
    requires Inv(s)
    ensures Inv(Step(s, Send(limit, draft)))
  {
    var s' := Step(s, Send(limit, draft));
    if s'.db != s.db {
      match draft.route
      case ToAgent(task) => AgentDraftKeepsInv(s, s', task, draft);
      case Refused(reply) => RefusedDraftKeepsInv(s, s', reply, draft);
    }
  }

  // ---- Committing a turn ---------------------------------------------------------------------

  function ReplyRow(db: Tables, task: Id, reply: Reply): Message
    requires task in db.tasks
  {
    var t := db.tasks[task];
    Message(t.session, Assistant, ClientOf(db, t.message), Some(t.message), reply.refusal, db.now / SECOND)
  }

  lemma {:induction false} InsertSourcesKeeps(db: Tables, reply: Id, ids: seq<Id>)
    requires SourcesAreSound(db) && IsReply(db, reply) && InsertSources(db, reply, ids).Some?
    ensures var db' := InsertSources(db, reply, ids).value;
            && db' == db.(sources := db'.sources) && SourcesAreSound(db')
            && (forall x :: x in db'.sources <==> x in db.sources || x in ids)
            && (forall x <- db'.sources :: db'.sources[x] == if x in db.sources then db.sources[x] else reply)
    decreases |ids|
  {
    if ids != [] {
      var db1 := db.(sources := db.sources[ids[0] := reply]);
      forall x <- db1.sources ensures IsReply(db1, db1.sources[x]) {
        assert x in db.sources ==> IsReply(db, db.sources[x]);
      }
      InsertSourcesKeeps(db1, reply, ids[1..]);
      assert ids == [ids[0]] + ids[1..];
    }
  }

  /** What a committed turn did to the tables, statement by statement. */
  ghost predicate CommittedAs(db: Tables, db': Tables, task: Id, token: Token, reply: Reply)
    requires task in db.tasks
  {
    var t := db.tasks[task];
    var row := ReplyRow(db, task, reply);
    && Held(db, task, token)
    && InsertMessage(db, reply.id, row) == Some(db.(messages := db'.messages))
    && InsertSources(db.(messages := db'.messages), reply.id, reply.sources)
       == Some(db.(messages := db'.messages, sources := db'.sources))
    && (reply.offer ==> InviteOf(db, t.session) == Some(NotInvited))
    && db'.intents == (if reply.offer then db.intents[t.session := db.intents[t.session].(invite := Invited)] else db.intents)
    && db'.tasks == db.tasks[task := Ended(t, Completed)]
    && db'.now == db.now
  }

  lemma {:induction false} SourcesTouchNothingElse(db: Tables, reply: Id, ids: seq<Id>)
    requires InsertSources(db, reply, ids).Some?
    ensures InsertSources(db, reply, ids).value == db.(sources := InsertSources(db, reply, ids).value.sources)
    decreases |ids|
  {
    if ids != [] {
      SourcesTouchNothingElse(db.(sources := db.sources[ids[0] := reply]), reply, ids[1..]);
    }
  }

  lemma CommitShape(db: Tables, task: Id, token: Token, reply: Reply)
    requires TryCommit(db, task, token, reply).Ok?
    ensures CommittedAs(db, TryCommit(db, task, token, reply).value, task, token, reply)
  {
    var db1 := InsertMessage(db, reply.id, ReplyRow(db, task, reply)).value;
    SourcesTouchNothingElse(db1, reply.id, reply.sources);
  }

  lemma CommitKeepsReplies(s: State, db': Tables, task: Id, token: Token, reply: Reply)
    requires TasksAreSound(s) && RepliesAreSound(s.db) && SourcesAreSound(s.db) && ClientKeysAreUnique(s.db)
    requires EffectsMatch(s.db)
    requires task in s.db.tasks && CommittedAs(s.db, db', task, token, reply)
    ensures RepliesAreSound(db') && SourcesAreSound(db') && ClientKeysAreUnique(db')
    ensures forall v :: HasReply(db', v) <==> v == s.db.tasks[task].message || HasReply(s.db, v)
  {
    var t := s.db.tasks[task];
    var row := ReplyRow(s.db, task, reply);
    assert TaskIsSound(s, t);
    var db1 := s.db.(messages := db'.messages);
    InsertReplyKeepsReplies(s.db, reply.id, row, t.message);
    InsertKeepsKeys(s.db, reply.id, row);
    var db2 := s.db.(messages := db'.messages, sources := db'.sources);
    assert IsReply(db1, reply.id);
    InsertSourcesKeeps(db1, reply.id, reply.sources);
    assert forall x <- db2.sources :: IsReply(db2, db2.sources[x]);
    SameMessagesSameReplies(db1, db');
    forall x, y, v | RepliesTo(db', x, v) && RepliesTo(db', y, v) ensures x == y {
      assert RepliesTo(db1, x, v) && RepliesTo(db1, y, v);
    }
    forall x, y | SameClientKey(db', x, y) ensures x == y {
      assert SameClientKey(db1, x, y);
    }
    forall id <- db'.messages | db'.messages[id].direction == Assistant ensures AnswersAVisitor(db', id) {
      assert AnswersAVisitor(db1, id);
    }
    forall x <- db'.sources ensures IsReply(db', db'.sources[x]) {
      assert IsReply(db2, db2.sources[x]);
    }
  }

  lemma CommitKeepsTasks(s: State, s': State, task: Id, token: Token, reply: Reply)
    requires TasksAreSound(s) && LeasesAreExclusive(s.db) && WithinCapacity(s)
    requires s'.tokens == s.tokens && s'.capacity == s.capacity
    requires task in s.db.tasks && CommittedAs(s.db, s'.db, task, token, reply)
    ensures TasksAreSound(s') && LeasesAreExclusive(s'.db) && WithinCapacity(s')
  {
    forall k <- s'.db.tasks ensures TaskIsSound(s', s'.db.tasks[k]) {
      assert TaskIsSound(s, s.db.tasks[k]);
    }
    forall j, k, message | TaskFor(s'.db, j, message) && TaskFor(s'.db, k, message) ensures j == k {
      assert TaskFor(s.db, j, message) && TaskFor(s.db, k, message);
    }
    QuieterKeepsExclusion(s.db, s'.db);
    ActiveShrinks(s, s');
  }

  lemma CommitKeepsEffects(s: State, db': Tables, task: Id, token: Token, reply: Reply)
    requires TasksAreSound(s) && EffectsMatch(s.db)
    requires task in s.db.tasks && CommittedAs(s.db, db', task, token, reply)
    requires forall v :: HasReply(db', v) <==> v == s.db.tasks[task].message || HasReply(s.db, v)
    ensures EffectsMatch(db')
  {
    var message := s.db.tasks[task].message;
    forall k <- db'.tasks ensures db'.tasks[k].status == Completed <==> HasReply(db', db'.tasks[k].message) {
      if k != task {
        assert TaskFor(s.db, task, message) && !TaskFor(s.db, k, message);
      }
    }
    forall v <- db'.messages | db'.messages[v].direction == Visitor ensures HasTask(db', v) || HasReply(db', v) {
      if k :| TaskFor(s.db, k, v) {
        assert TaskFor(db', k, v);
      }
    }
  }

  lemma CommitKeepsInvitations(s: State, s': State, task: Id, token: Token, reply: Reply)
    requires InvitationsMatch(s)
    requires task in s.db.tasks && CommittedAs(s.db, s'.db, task, token, reply)
    requires forall v :: HasReply(s'.db, v) <==> v == s.db.tasks[task].message || HasReply(s.db, v)
    requires s'.seen == s.seen
    requires s'.offers == if reply.offer then s.offers + [Offer(s.db.tasks[task].session, s.db.tasks[task].message)] else s.offers
    ensures InvitationsMatch(s')
  {
    var t := s.db.tasks[task];
    forall session ensures OffersTo(s'.offers, session) == if StillNotInvited(s'.db, session) then 0 else 1 {
      assert OffersTo(s.offers, session) == if StillNotInvited(s.db, session) then 0 else 1;
      if reply.offer {
        assert s'.offers[..|s'.offers| - 1] == s.offers;
      }
    }
  }

  lemma CommitKeepsInv(s: State, task: Id, token: Token, reply: Reply)
    requires Inv(s)
    ensures Inv(Step(s, Commit(task, token, reply)))
  {
    var s' := Step(s, Commit(task, token, reply));
    if TryCommit(s.db, task, token, reply).Ok? {
      CommitShape(s.db, task, token, reply);
      CommitKeepsReplies(s, s'.db, task, token, reply);
      CommitKeepsTasks(s, s', task, token, reply);
      CommitKeepsEffects(s, s'.db, task, token, reply);
      CommitKeepsInvitations(s, s', task, token, reply);
      assert TaskFor(s'.db, task, s.db.tasks[task].message);
      RefusalsStayMatched(s.db, s'.db);
    }
  }

  // ---- Intent and clock ----------------------------------------------------------------------

  /** Nothing but the clock, the intents and what was read of them. */
  lemma QuietKeepsInv(s: State, s': State)
    requires Inv(s) && s'.capacity == s.capacity && s'.tokens == s.tokens
    requires s'.db == s.db.(now := s'.db.now, intents := s'.db.intents)
    requires InvitationsMatch(s')
    ensures Inv(s')
  {
    MoreMessagesKeepTasks(s, s');
    SameMessagesKeepReplies(s.db, s'.db);
    SameMessagesSameReplies(s.db, s'.db);
    QuieterKeepsExclusion(s.db, s'.db);
    ActiveShrinks(s, s');
    RefusalsStayMatched(s.db, s'.db);
    forall v <- s'.db.messages | s'.db.messages[v].direction == Visitor ensures HasTask(s'.db, v) || HasReply(s'.db, v) {
      if k :| TaskFor(s.db, k, v) {
        assert TaskFor(s'.db, k, v);
      }
    }
  }

  lemma IntentStepKeepsInvitations(s: State, a: Action)
    requires InvitationsMatch(s) && (a.Tick? || a.ReadIntent? || a.WriteIntent? || a.Decide?)
    ensures InvitationsMatch(Step(s, a))
  {
    var s' := Step(s, a);
    SameMessagesSameReplies(s.db, s'.db);
    forall session ensures OffersTo(s'.offers, session) == if StillNotInvited(s'.db, session) then 0 else 1 {
      assert OffersTo(s.offers, session) == if StillNotInvited(s.db, session) then 0 else 1;
      assert StillNotInvited(s.db, session) == StillNotInvited(s'.db, session);
    }
  }

  // ---- Every run -----------------------------------------------------------------------------

  lemma StepKeepsInv(s: State, a: Action)
    requires Inv(s)
    ensures Inv(Step(s, a))
  {
    match a
    case Tick(_) | ReadIntent(_) | WriteIntent(_, _, _, _) | Decide(_, _) =>
      IntentStepKeepsInvitations(s, a);
      QuietKeepsInv(s, Step(s, a));
    case Send(limit, draft) => SendKeepsInv(s, limit, draft);
    case Requeue(message) => RequeueKeepsInv(s, message);
    case TakeLease(task, token) => TakeLeaseKeepsInv(s, task, token);
    case Heartbeat(_, _) | GiveBack(_, _, _) | GiveUp(_, _) =>
      HolderStepReleases(s, a);
      ReleasingKeepsInv(s, Step(s, a));
    case RecoverLeases =>
      RecoverReleases(s);
      ReleasingKeepsInv(s, Step(s, a));
    case Commit(task, token, reply) => CommitKeepsInv(s, task, token, reply);
  }

  lemma {:induction false} RunKeepsInv(s: State, trace: seq<Action>)
    requires Inv(s)
    ensures Inv(Run(s, trace))
    decreases |trace|
  {
    if trace != [] {
      RunKeepsInv(s, trace[..|trace| - 1]);
      StepKeepsInv(Run(s, trace[..|trace| - 1]), trace[|trace| - 1]);
    }
  }

  lemma InitSatisfiesInv(capacity: int)
    ensures Inv(Init(capacity))
  {
    assert ActiveTasks(Init(capacity).db) == {};
  }
}
