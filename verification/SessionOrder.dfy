/** The tasks of one session: in which order their replies come, and that there is always a next one. */
module SessionOrder {
  import opened Options
  import opened MessageTables
  import opened MessageProtocol
  import opened MessageInvariant
  import opened MessageGuarantees
  import opened MessageStore

  // ---- What is before a running task ---------------------------------------------------------

  /** The unfinished tasks of the session whose messages come before this task's. */
  function Early(db: Tables, task: Id): set<Id>
    requires task in db.tasks
  {
    set k <- db.tasks | db.tasks[k].session == db.tasks[task].session && !Terminal(db.tasks[k].status)
                        && Before(db, db.tasks[k].message, db.tasks[task].message)
  }

  /** The action puts an unfinished task before one that is running. */
  ghost predicate CutsIn(s: State, a: Action, task: Id) {
    task in s.db.tasks && task in Step(s, a).db.tasks && !(Early(Step(s, a).db, task) <= Early(s.db, task))
  }

  /** A task that waits behind a running one of its session stays as it is. */
  lemma WaitingTaskStays(s: State, a: Action, task: Id, token: Token, k: Id)
    requires Inv(s) && Held(s.db, task, token) && k in Early(s.db, task)
    ensures k in Step(s, a).db.tasks && Step(s, a).db.tasks[k] == s.db.tasks[k]
  {
    assert s.db.tasks[k].status == Processing ==> Clash(s.db, k, task);
    if a.Commit? {
      CommitLeavesWaiting(s, a, k);
    } else if a.Send? || a.Requeue? {
      AdmissionLeavesWaiting(s, a, k);
    } else if a.TakeLease? {
      assert !Leasable(s.db, k);
    } else {
      RestLeavesWaiting(s, a, k);
    }
  }

  lemma RestLeavesWaiting(s: State, a: Action, k: Id)
    requires !a.Commit? && !a.Send? && !a.Requeue? && !a.TakeLease? && k in s.db.tasks && s.db.tasks[k].status != Processing
    ensures k in Step(s, a).db.tasks && Step(s, a).db.tasks[k] == s.db.tasks[k]
  {
  }

  lemma CommitLeavesWaiting(s: State, a: Action, k: Id)
    requires a.Commit? && k in s.db.tasks && s.db.tasks[k].status != Processing
    ensures k in Step(s, a).db.tasks && Step(s, a).db.tasks[k] == s.db.tasks[k]
  {
    if TryCommit(s.db, a.task, a.token, a.reply).Ok? {
      CommitShape(s.db, a.task, a.token, a.reply);
    }
  }

  lemma AdmissionLeavesWaiting(s: State, a: Action, k: Id)
    requires (a.Send? || a.Requeue?) && k in s.db.tasks && s.db.tasks[k].status != Failed
    ensures k in Step(s, a).db.tasks && Step(s, a).db.tasks[k] == s.db.tasks[k]
  {
  }

  /** While the task runs, what is before it stays before it. */
  lemma HeldKeepsEarly(s: State, a: Action, task: Id, token: Token)
    requires Inv(s) && Held(s.db, task, token) && Held(Step(s, a).db, task, token)
    ensures Early(s.db, task) <= Early(Step(s, a).db, task)
    ensures Step(s, a).db.tasks[task].message == s.db.tasks[task].message
    ensures Step(s, a).db.tasks[task].session == s.db.tasks[task].session
  {
    StepKeepsFacts(s, a);
    StepKeepsInv(s, a);
    SessionsStay(s, Step(s, a), task);
    forall k <- Early(s.db, task) ensures k in Early(Step(s, a).db, task) {
      WaitingTaskStays(s, a, task, token, k);
    }
  }

  lemma SessionsStay(s: State, s': State, task: Id)
    requires TasksAreSound(s) && TasksAreSound(s') && FactsKept(s, s') && task in s.db.tasks
    ensures task in s'.db.tasks && s'.db.tasks[task].session == s.db.tasks[task].session
  {
    assert TaskIsSound(s, s.db.tasks[task]) && TaskIsSound(s', s'.db.tasks[task]);
  }

  /** Whoever holds the task in the end held it all the time. */
  lemma HeldThroughout(s: State, more: seq<Action>, a: Action, task: Id, token: Token)
    requires Inv(s) && Held(s.db, task, token) && Held(Step(Run(s, more), a).db, task, token)
    ensures Held(Run(s, more).db, task, token)
  {
    if !Held(Run(s, more).db, task, token) {
      LosingTheTaskKillsTheToken(s, token, task, more);
      OnlyOneHolder(s, token, task);
      TokenLeavesForGood(s, token, task, more);
      TokenStaysDead(Run(s, more), a, token);
      assert false;
    }
  }

  // ---- Who can cut in ------------------------------------------------------------------------

  ghost predicate NothingFromTheFuture(db: Tables) {
    forall id <- db.messages :: db.messages[id].createdAt <= db.now / SECOND
  }

  lemma StepKeepsThePast(s: State, a: Action)
    requires NothingFromTheFuture(s.db)
    ensures NothingFromTheFuture(Step(s, a).db)
  {
    TimeNeverGoesBack(s, a);
    if a.Commit? {
      CommitKeepsThePast(s, a);
    } else if a.Send? {
      SendKeepsThePast(s, a);
    }
  }

  lemma SendKeepsThePast(s: State, a: Action)
    requires NothingFromTheFuture(s.db) && a.Send?
    ensures NothingFromTheFuture(Step(s, a).db)
  {
  }

  lemma CommitKeepsThePast(s: State, a: Action)
    requires NothingFromTheFuture(s.db) && a.Commit?
    ensures NothingFromTheFuture(Step(s, a).db)
  {
    if TryCommit(s.db, a.task, a.token, a.reply).Ok? {
      CommitShape(s.db, a.task, a.token, a.reply);
    }
  }

  lemma {:induction false} RunKeepsThePast(s: State, trace: seq<Action>)
    requires NothingFromTheFuture(s.db)
    ensures NothingFromTheFuture(Run(s, trace).db)
    decreases |trace|
  {
    if trace != [] {
      RunKeepsThePast(s, trace[..|trace| - 1]);
      StepKeepsThePast(Run(s, trace[..|trace| - 1]), trace[|trace| - 1]);
    }
  }

  /** A new message of the session, written within the same second, with a smaller id. */
  predicate ArrivesBefore(s: State, a: Action, task: Id)
    requires task in s.db.tasks && s.db.tasks[task].message in s.db.messages
  {
    && a.Send? && a.draft.route.ToAgent? && AnswerTo(s, a) == Written && a.draft.session == s.db.tasks[task].session
    && s.db.messages[s.db.tasks[task].message].createdAt == s.db.now / SECOND && a.draft.id < s.db.tasks[task].message
  }

  /** A failed task of the message, of the session and before the task. */
  predicate Returns(db: Tables, message: Id, task: Id, k: Id)
    requires task in db.tasks
  {
    TaskFor(db, k, message) && db.tasks[k].status == Failed
    && db.tasks[k].session == db.tasks[task].session && Before(db, message, db.tasks[task].message)
  }

  /** A failed task of an earlier message of the session is queued again. */
  ghost predicate ReturnsBefore(s: State, a: Action, task: Id)
    requires task in s.db.tasks
  {
    && a.Requeue? && AnswerTo(s, a) == Written
    && exists k :: Returns(s.db, a.message, task, k)
  }

  /** Without a new active task nothing new is before any other. */
  lemma NobodyEntersNobodyCutsIn(s: State, s': State, task: Id)
    requires TasksAreSound(s) && TasksAreSound(s') && FactsKept(s, s') && task in s.db.tasks
    requires ActiveTasks(s'.db) <= ActiveTasks(s.db)
    ensures task in s'.db.tasks && Early(s'.db, task) <= Early(s.db, task)
  {
    SessionsStay(s, s', task);
    assert TaskIsSound(s, s.db.tasks[task]);
    forall k <- Early(s'.db, task) ensures k in Early(s.db, task) {
      assert k in ActiveTasks(s.db);
      SessionsStay(s, s', k);
      assert TaskIsSound(s, s.db.tasks[k]);
    }
  }

  /** What an accepted message adds. */
  ghost predicate Adds(s: State, s': State, draft: Draft, k: Id) {
    && draft.id !in s.db.messages && k !in s.db.tasks
    && s'.db.messages == s.db.messages[draft.id := VisitorRow(s.db, draft)]
    && s'.db.tasks == s.db.tasks[k := Task(draft.id, draft.session, Queued, 0, MAX_ATTEMPTS, s.db.now, None, None)]
  }

  lemma SendAdds(s: State, a: Action)
    requires a.Send? && a.draft.route.ToAgent?
    ensures if AnswerTo(s, a) == Written then Adds(s, Step(s, a), a.draft, a.draft.route.task) else Step(s, a) == s
  {
  }

  lemma NewcomerCutsInExactlyWhen(s: State, s': State, draft: Draft, k: Id, task: Id)
    requires Adds(s, s', draft, k) && NothingFromTheFuture(s.db) && task in s.db.tasks
    requires forall j <- s.db.tasks :: s.db.tasks[j].message in s.db.messages
    ensures !(Early(s'.db, task) <= Early(s.db, task)) <==>
              && draft.session == s.db.tasks[task].session
              && s.db.messages[s.db.tasks[task].message].createdAt == s.db.now / SECOND && draft.id < s.db.tasks[task].message
  {
    var m := s.db.tasks[task].message;
    assert Before(s'.db, draft.id, m) <==> s.db.messages[m].createdAt == s.db.now / SECOND && draft.id < m;
    assert k in Early(s'.db, task) <==> draft.session == s.db.tasks[task].session && Before(s'.db, draft.id, m);
    assert k !in Early(s.db, task);
    assert forall j <- Early(s'.db, task) | j != k :: j in Early(s.db, task);
  }

  lemma SendCutsInExactlyWhen(s: State, a: Action, task: Id, token: Token)
    requires Inv(s) && NothingFromTheFuture(s.db) && Held(s.db, task, token) && a.Send?
    ensures s.db.tasks[task].message in s.db.messages
    ensures CutsIn(s, a, task) <==> ArrivesBefore(s, a, task)
  {
    assert TaskIsSound(s, s.db.tasks[task]);
    StepKeepsFacts(s, a);
    StepKeepsInv(s, a);
    if a.draft.route.ToAgent? {
      SendAdds(s, a);
      if AnswerTo(s, a) == Written {
        assert forall j <- s.db.tasks :: TaskIsSound(s, s.db.tasks[j]);
        NewcomerCutsInExactlyWhen(s, Step(s, a), a.draft, a.draft.route.task, task);
      }
    } else {
      OnlyAdmissionsLetIn(s, a);
      NobodyEntersNobodyCutsIn(s, Step(s, a), task);
    }
  }

  lemma RequeuedAreEarly(db: Tables, message: Id, task: Id)
    requires task in db.tasks && db.tasks[task].status == Processing
    ensures !(Early(RequeueFailed(db, message), task) <= Early(db, task)) <==> exists k :: Returns(db, message, task, k)
  {
    var db' := RequeueFailed(db, message);
    forall k ensures k in Early(db', task) && k !in Early(db, task) <==> Returns(db, message, task, k) {
    }
    if k :| Returns(db, message, task, k) {
      assert k in Early(db', task) && k !in Early(db, task);
    }
  }

  lemma RequeueCutsInExactlyWhen(s: State, a: Action, task: Id, token: Token)
    requires Held(s.db, task, token) && a.Requeue?
    ensures CutsIn(s, a, task) <==> ReturnsBefore(s, a, task)
  {
    RequeuedAreEarly(s.db, a.message, task);
  }

  lemma OthersNeverCutIn(s: State, a: Action, task: Id, token: Token)
    requires Inv(s) && Held(s.db, task, token) && !a.Send? && !a.Requeue?
    ensures !CutsIn(s, a, task)
  {
    StepKeepsFacts(s, a);
    StepKeepsInv(s, a);
    OnlyAdmissionsLetIn(s, a);
    NobodyEntersNobodyCutsIn(s, Step(s, a), task);
  }

  /** Only a message of the same second with a smaller id cuts in, or an earlier one that is queued again. */
  lemma CutsInExactlyWhen(s: State, a: Action, task: Id, token: Token)
    requires Inv(s) && NothingFromTheFuture(s.db) && Held(s.db, task, token)
    ensures s.db.tasks[task].message in s.db.messages
    ensures CutsIn(s, a, task) <==> ArrivesBefore(s, a, task) || ReturnsBefore(s, a, task)
  {
    assert TaskIsSound(s, s.db.tasks[task]);
    if a.Send? {
      SendCutsInExactlyWhen(s, a, task, token);
    } else if a.Requeue? {
      RequeueCutsInExactlyWhen(s, a, task, token);
    } else {
      OthersNeverCutIn(s, a, task, token);
    }
  }

  // ---- Replies in message order --------------------------------------------------------------

  ghost predicate ComesBefore(s: State, a: Action, task: Id) {
    task in s.db.tasks && s.db.tasks[task].message in s.db.messages && (ArrivesBefore(s, a, task) || ReturnsBefore(s, a, task))
  }

  /** Some step is an accepted message of the same second with a smaller id, or the requeue of an earlier one. */
  ghost predicate SomeoneComesBefore(s: State, more: seq<Action>, task: Id) {
    more != []
    && (|| SomeoneComesBefore(s, more[..|more| - 1], task)
        || ComesBefore(Run(s, more[..|more| - 1]), more[|more| - 1], task))
  }

  lemma {:induction false} EarlyExactlyWhenSomeoneCame(s: State, more: seq<Action>, task: Id, token: Token)
    requires Inv(s) && NothingFromTheFuture(s.db)
    requires Held(s.db, task, token) && Early(s.db, task) == {} && Held(Run(s, more).db, task, token)
    ensures Early(Run(s, more).db, task) == {} <==> !SomeoneComesBefore(s, more, task)
    decreases |more|
  {
    if more != [] {
      var rest, a := more[..|more| - 1], more[|more| - 1];
      HeldThroughout(s, rest, a, task, token);
      EarlyExactlyWhenSomeoneCame(s, rest, task, token);
      RunKeepsInv(s, rest);
      RunKeepsThePast(s, rest);
      HeldKeepsEarly(Run(s, rest), a, task, token);
      CutsInExactlyWhen(Run(s, rest), a, task, token);
    }
  }

  /**
    When a reply is written, every earlier message of its session has been answered or given up,
    exactly when since the lease of its task no message of the same second with a smaller id was
    accepted and no earlier failed one was queued again.
  */
  lemma RepliesComeInOrderExactlyWhen(s: State, task: Id, token: Token, more: seq<Action>)
    requires Inv(s) && NothingFromTheFuture(s.db)
    requires token !in s.tokens && Held(Step(s, TakeLease(task, token)).db, task, token)
    requires Held(Run(Step(s, TakeLease(task, token)), more).db, task, token)
    ensures var leased := Step(s, TakeLease(task, token));
            Early(Run(leased, more).db, task) == {} <==> !SomeoneComesBefore(leased, more, task)
  {
    var leased := Step(s, TakeLease(task, token));
    LeaseTakesTheOldest(s, task, token);
    StepKeepsInv(s, TakeLease(task, token));
    StepKeepsThePast(s, TakeLease(task, token));
    assert forall k <- Early(leased.db, task) :: k != task;
    EarlyExactlyWhenSomeoneCame(leased, more, task, token);
  }

  // ---- There is always a next task -----------------------------------------------------------

  function Unfinished(db: Tables, session: Session): set<Id> {
    set k <- db.tasks | db.tasks[k].session == session && !Terminal(db.tasks[k].status)
  }

  predicate IsFirst(db: Tables, ids: set<Id>, first: Id)
    requires ids <= db.tasks.Keys
  {
    first in ids && forall k <- ids :: !Before(db, db.tasks[k].message, db.tasks[first].message)
  }

  lemma {:induction false} FirstExists(db: Tables, ids: set<Id>) returns (first: Id)
    requires ids != {} && ids <= db.tasks.Keys
    ensures IsFirst(db, ids, first)
    decreases |ids|
  {
    var x :| x in ids;
    if ids == {x} {
      first := x;
    } else {
      var y := FirstExists(db, ids - {x});
      first := if Before(db, db.tasks[x].message, db.tasks[y].message) then x else y;
    }
  }

  /** By then every task is due and every lease has run out. */
  predicate LateEnough(db: Tables, ids: set<Id>, elapsed: nat)
    requires ids <= db.tasks.Keys
  {
    forall k <- ids :: db.tasks[k].runAfter <= db.now + elapsed
                       && (db.tasks[k].leaseExpiresAt.Some? ==> db.tasks[k].leaseExpiresAt.value <= db.now + elapsed)
  }

  lemma {:induction false} EveryLeaseRunsOut(db: Tables, ids: set<Id>) returns (elapsed: nat)
    requires ids <= db.tasks.Keys
    ensures LateEnough(db, ids, elapsed)
    decreases |ids|
  {
    if ids == {} {
      elapsed := 0;
    } else {
      var x :| x in ids;
      var rest := EveryLeaseRunsOut(db, ids - {x});
      var due := db.tasks[x].runAfter - db.now;
      var over := if db.tasks[x].leaseExpiresAt.Some? then db.tasks[x].leaseExpiresAt.value - db.now else 0;
      elapsed := if due > rest && due > over then due else if over > rest then over else rest;
    }
  }

  /** After a wait and a recovery: nothing runs, and what is unfinished is due. */
  lemma RecoveredTasksAreDue(s: State, elapsed: nat)
    requires Inv(s) && LateEnough(s.db, s.db.tasks.Keys, elapsed)
    ensures var t := Step(Step(s, Tick(elapsed)), RecoverLeases);
            forall k <- t.db.tasks :: t.db.tasks[k].status != Processing && (!Terminal(t.db.tasks[k].status) ==> t.db.tasks[k].runAfter <= t.db.now)
  {
    forall k <- s.db.tasks ensures s.db.tasks[k].status == Processing ==> s.db.tasks[k].leaseExpiresAt.Some? {
      assert TaskIsSound(s, s.db.tasks[k]);
    }
  }

  lemma FirstIsLeasable(t: State, session: Session, first: Id, token: Token)
    requires Inv(t) && IsFirst(t.db, Unfinished(t.db, session), first) && token !in t.tokens
    requires forall k <- t.db.tasks :: t.db.tasks[k].status != Processing && (!Terminal(t.db.tasks[k].status) ==> t.db.tasks[k].runAfter <= t.db.now)
    ensures Held(Step(t, TakeLease(first, token)).db, first, token)
  {
    assert TaskIsSound(t, t.db.tasks[first]);
    assert Leasable(t.db, first);
  }

  /**
    No session is ever stuck: from every reachable state a wait and a recovery of leases lead to
    one in which the session has nothing left to do, or its first unfinished task can be leased.
  */
  lemma NoSessionIsStuck(s: State, session: Session, token: Token) returns (elapsed: nat)
    requires Inv(s) && token !in s.tokens
    ensures var t := Step(Step(s, Tick(elapsed)), RecoverLeases);
            && (forall first | IsFirst(t.db, Unfinished(t.db, session), first) :: Held(Step(t, TakeLease(first, token)).db, first, token))
            && (Unfinished(t.db, session) == {} || exists first :: IsFirst(t.db, Unfinished(t.db, session), first))
  {
    elapsed := EveryLeaseRunsOut(s.db, s.db.tasks.Keys);
    RecoveredTasksAreDue(s, elapsed);
    StepKeepsInv(s, Tick(elapsed));
    var t := Step(Step(s, Tick(elapsed)), RecoverLeases);
    StepKeepsInv(Step(s, Tick(elapsed)), RecoverLeases);
    forall first | IsFirst(t.db, Unfinished(t.db, session), first)
      ensures Held(Step(t, TakeLease(first, token)).db, first, token)
    {
      FirstIsLeasable(t, session, first, token);
    }
    if Unfinished(t.db, session) != {} {
      var _ := FirstExists(t.db, Unfinished(t.db, session));
    }
  }
}
