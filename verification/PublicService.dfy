/** Accepting a visitor message: idempotent lookup, admission, reservation and requeue. */
module PublicService {
  import opened Options
  import opened MessageTables
  import opened MessageProtocol
  import opened MessageInvariant
  import opened MessageGuarantees
  import opened MessageStore

  // ---- Reading the status of a message -------------------------------------------------------

  datatype MessageStatus = InTask(status: Status) | AnsweredLocally | Unknown

  /** The task decides; a message without one is answered by its local refusal or not at all. */
  ghost function StatusOf(db: Tables, message: Id): MessageStatus {
    if k :| TaskFor(db, k, message) then InTask(db.tasks[k].status)
    else if HasReply(db, message) then AnsweredLocally
    else Unknown
  }

  /** A stored visitor message always has a status: its task's, or that of its local refusal. */
  lemma StatusIsKnown(capacity: int, trace: seq<Action>, v: Id)
    requires var db := Run(Init(capacity), trace).db; v in db.messages && db.messages[v].direction == Visitor
    ensures StatusOf(Run(Init(capacity), trace).db, v) != Unknown
  {
    ReachableSatisfiesInv(capacity, trace);
  }

  /** Once a task reads as completed, its reply is there and the status stays, whatever happens between the two reads. */
  lemma CompletedStaysAnswered(capacity: int, trace: seq<Action>, more: seq<Action>, v: Id)
    requires StatusOf(Run(Init(capacity), trace).db, v) == InTask(Completed)
    ensures HasReply(Run(Init(capacity), trace + more).db, v)
    ensures StatusOf(Run(Init(capacity), trace + more).db, v) == InTask(Completed)
  {
    var s, s' := Run(Init(capacity), trace), Run(Init(capacity), trace + more);
    RunInTwo(Init(capacity), trace, more);
    FactsAreNeverUndone(s, more);
    ReachableSatisfiesInv(capacity, trace + more);
    var k :| TaskFor(s.db, k, v) && s.db.tasks[k].status == Completed;
    assert TaskFor(s'.db, k, v) && s'.db.tasks[k].status == Completed;
  }

  /** A local refusal is there from the start: its message never gets a task. */
  lemma RefusalStaysAnswered(capacity: int, trace: seq<Action>, more: seq<Action>, v: Id)
    requires var db := Run(Init(capacity), trace).db; v in db.messages && StatusOf(db, v) == AnsweredLocally
    ensures HasReply(Run(Init(capacity), trace + more).db, v)
    ensures StatusOf(Run(Init(capacity), trace + more).db, v) == AnsweredLocally
  {
    var s, s' := Run(Init(capacity), trace), Run(Init(capacity), trace + more);
    RunInTwo(Init(capacity), trace, more);
    FactsAreNeverUndone(s, more);
    var r :| RepliesTo(s.db, r, v);
    assert RepliesTo(s'.db, r, v);
    forall j ensures !TaskFor(s'.db, j, v) {
      assert !TaskFor(s.db, j, v);
    }
  }

  // ---- Sending -------------------------------------------------------------------------------

  datatype SendFailure =
    | ChecksFailed        // session, consent, block list, rate, sensitive words or content
    | NotReserved(error: SendError)

  datatype SendOutcome = Accepted(id: Id) | AlreadyKnown(id: Id) | NotSent(failure: SendFailure)

  /** The checks whose outcome is an input: before anything is read, on a stored message, on a new one. */
  datatype Checks = Checks(session: bool, stored: bool, content: bool)

  /** The new task: queued for now, with all its attempts. */
  ghost predicate WaitsForAWorker(db: Tables, task: Id, draft: Draft) {
    task in db.tasks && db.tasks[task] == Task(draft.id, draft.session, Queued, 0, 5, db.now, None, None)
  }

  /** A visitor message of the draft's session, under its key when it has one. */
  ghost predicate Stored(db: Tables, id: Id, draft: Draft) {
    && id in db.messages && db.messages[id].direction == Visitor && db.messages[id].session == draft.session
    && db.messages[id].client == draft.client
  }

  /** What a new message leaves behind: itself, and its task or its refusal. */
  ghost predicate Taken(before: Tables, db: Tables, draft: Draft) {
    && draft.id !in before.messages && Stored(db, draft.id, draft)
    && match draft.route
       case ToAgent(task) => WaitsForAWorker(db, task, draft)
       case Refused(reply) => RepliesTo(db, reply, draft.id)
  }

  ghost predicate KeyIsKnown(db: Tables, draft: Draft) {
    draft.client.Some? && exists id :: SentAs(db, id, draft.session, draft.client.value)
  }

  ghost predicate OverLimit(db: Tables, draft: Draft, limit: int) {
    |VisitorMessages(db, draft.session)| >= limit
  }

  ghost predicate NoRoom(s: State, draft: Draft) {
    draft.route.ToAgent? && (s.capacity <= 0 || |ActiveTasks(s.db)| >= s.capacity)
  }

  /** An identifier of the draft is already in use. */
  predicate IdsClash(db: Tables, draft: Draft) {
    draft.id in db.messages
    || match draft.route
       case ToAgent(task) => task in db.tasks
       case Refused(reply) => reply in db.messages || reply == draft.id
  }

  ghost predicate SendIsAnswered(s: State, limit: int, draft: Draft, answer: Answer) {
    var db, s' := s.db, Step(s, Send(limit, draft));
    && (answer != Written ==> s' == s)
    && if KeyIsKnown(db, draft) then answer.Known? && Stored(db, answer.id, draft)
       else if OverLimit(db, draft, limit) then answer == TurnedAway(LimitExceeded)
       else if NoRoom(s, draft) then answer == TurnedAway(QueueBusy)
       else if IdsClash(db, draft) then answer == TurnedAway(WriteFailed)
       else answer == Written && Taken(db, s'.db, draft)
  }

  /** The reservation: a known key first, then the limit, the queue and the identifiers; only success writes anything. */
  lemma ReservationIsExact(s: State, limit: int, draft: Draft)
    requires Inv(s)
    ensures SendIsAnswered(s, limit, draft, AnswerTo(s, Send(limit, draft)))
  {
    if !KeyIsKnown(s.db, draft) {
      WritingFailsExactlyWhen(s, draft);
    }
  }

  lemma WritingFailsExactlyWhen(s: State, draft: Draft)
    requires Inv(s) && !KeyIsKnown(s.db, draft)
    ensures WriteDraft(s.db, draft).None? <==> IdsClash(s.db, draft)
    ensures WriteDraft(s.db, draft).Some? ==> Taken(s.db, WriteDraft(s.db, draft).value, draft)
  {
    KeysOfRepliesAreKnown(s, draft);
    if draft.id !in s.db.messages {
      assert forall k <- s.db.tasks :: TaskIsSound(s, s.db.tasks[k]);
    }
  }

  /** A reply has its visitor's key, so a key no visitor used is free for a reply too. */
  lemma KeysOfRepliesAreKnown(s: State, draft: Draft)
    requires Inv(s) && !KeyIsKnown(s.db, draft)
    ensures !ClientKeyTaken(s.db, draft.session, Visitor, draft.client)
    ensures !ClientKeyTaken(s.db, draft.session, Assistant, draft.client)
  {
    if draft.client.Some? {
      forall id <- s.db.messages
        ensures s.db.messages[id].session == draft.session ==> s.db.messages[id].client != draft.client
      {
        var m := s.db.messages[id];
        if m.session == draft.session && m.client == draft.client {
          assert m.direction == Assistant ==> AnswersAVisitor(s.db, id);
          assert SentAs(s.db, if m.direction == Visitor then id else m.replyTo.value, draft.session, draft.client.value);
        }
      }
    }
  }

  // ---- What a call comes to ------------------------------------------------------------------

  function Lookup(db: Tables, draft: Draft): Option<Id> {
    if draft.client.Some? then FindByClient(db, draft.session, draft.client.value) else None
  }

  predicate HasFailed(db: Tables, message: Id) {
    exists k <- db.tasks :: TaskFor(db, k, message) && db.tasks[k].status == Failed
  }

  /** A message has one task at most, so the query for a failed task reads the status of the message. */
  lemma FailedIsItsStatus(s: State, message: Id)
    requires Inv(s)
    ensures HasFailed(s.db, message) <==> StatusOf(s.db, message) == InTask(Failed)
  {
    if k :| TaskFor(s.db, k, message) {
      assert forall j | TaskFor(s.db, j, message) :: j == k;
    }
  }

  /** What the reads of a call found: the message its key names, and whether that message's task had failed. */
  datatype Reads = Reads(existing: Option<Id>, failed: bool)

  /** The call read the key at one moment of the run and the task at a later one. */
  ghost predicate ReadThere(states: seq<State>, looked: nat, read: nat, draft: Draft, r: Reads) {
    && looked <= read < |states|
    && (r.existing.None? <==> !KeyIsKnown(states[looked].db, draft))
    && (r.existing.Some? ==> Stored(states[looked].db, r.existing.value, draft))
    && (r.failed <==> r.existing.Some? && StatusOf(states[read].db, r.existing.value) == InTask(Failed))
  }

  lemma ReadingLasts(states: seq<State>, longer: seq<State>, looked: nat, read: nat, draft: Draft, r: Reads)
    requires states <= longer && ReadThere(states, looked, read, draft, r)
    ensures ReadThere(longer, looked, read, draft, r)
  {
    assert longer[looked] == states[looked] && longer[read] == states[read];
  }

  /** Queued for now with all its attempts, if it was still failed then; otherwise as it was. */
  ghost predicate StartsOver(before: State, after: State, message: Id) {
    if StatusOf(before.db, message) == InTask(Failed)
    then && StatusOf(after.db, message) == InTask(Queued)
         && forall k | TaskFor(after.db, k, message) :: after.db.tasks[k].attempts == 0 && after.db.tasks[k].runAfter == after.db.now
    else StatusOf(after.db, message) == StatusOf(before.db, message)
  }

  /** The last step of the run started the message over. */
  ghost predicate EndsStartingOver(states: seq<State>, message: Id) {
    |states| >= 2 && StartsOver(states[|states| - 2], states[|states| - 1], message)
  }

  /** The status of a message is that of its one task. */
  lemma StatusOfItsTask(s: State, message: Id, k: Id)
    requires TasksAreSound(s) && TaskFor(s.db, k, message)
    ensures StatusOf(s.db, message) == InTask(s.db.tasks[k].status) && forall j | TaskFor(s.db, j, message) :: j == k
  {
    forall j | TaskFor(s.db, j, message) ensures j == k {
    }
  }

  lemma RequeuedRow(s: State, message: Id, k: Id)
    requires AnswerTo(s, Requeue(message)) == Written && TaskFor(s.db, k, message)
    ensures var t, s' := s.db.tasks[k], Step(s, Requeue(message));
            && TaskFor(s'.db, k, message) && s'.db.now == s.db.now
            && s'.db.tasks[k] == if t.status == Failed then Ended(t, Queued).(attempts := 0, runAfter := s.db.now) else t
  {
  }

  lemma RequeueTouchesNoOther(s: State, message: Id)
    requires forall k :: !TaskFor(s.db, k, message)
    ensures StatusOf(Step(s, Requeue(message)).db, message) == StatusOf(s.db, message)
  {
    var s' := Step(s, Requeue(message));
    forall k ensures !TaskFor(s'.db, k, message) {
      assert !TaskFor(s.db, k, message);
    }
    SameMessagesSameReplies(s.db, s'.db);
  }

  lemma RequeueStartsOver(s: State, message: Id)
    requires Inv(s) && AnswerTo(s, Requeue(message)) == Written
    ensures StartsOver(s, Step(s, Requeue(message)), message)
  {
    if k :| TaskFor(s.db, k, message) {
      StepKeepsInv(s, Requeue(message));
      RequeuedRow(s, message, k);
      StatusOfItsTask(s, message, k);
      StatusOfItsTask(Step(s, Requeue(message)), message, k);
    } else {
      RequeueTouchesNoOther(s, message);
    }
  }

  /** A known message: it alone is the answer, its task is queued again exactly if it had failed, and only then the queue can refuse. */
  ghost predicate ResentAs(message: Id, passes: bool, failed: bool, took: seq<Statement>, answer: Answer, outcome: SendOutcome) {
    && took == (if passes && failed then [Statement(Requeue(message), answer)] else [])
    && (!passes ==> outcome == NotSent(ChecksFailed))
    && (passes && !(failed && answer.TurnedAway?) ==> outcome == AlreadyKnown(message))
    && (passes && failed && answer.TurnedAway? ==> outcome == NotSent(NotReserved(answer.refusal)))
  }

  /** A new message: one reservation, whose answer is the outcome. */
  ghost predicate NewlySentAs(draft: Draft, limit: int, passes: bool, took: seq<Statement>, answer: Answer, outcome: SendOutcome) {
    && took == (if passes then [Statement(Send(limit, draft), answer)] else [])
    && (!passes ==> outcome == NotSent(ChecksFailed))
    && (passes ==> ReservedAs(draft, answer, outcome))
  }

  ghost predicate ReservedAs(draft: Draft, answer: Answer, outcome: SendOutcome) {
    || (answer == Written && outcome == Accepted(draft.id))
    || (answer.Known? && outcome == AlreadyKnown(answer.id))
    || (answer.TurnedAway? && outcome == NotSent(NotReserved(answer.refusal)))
  }

  class PublicService {
    const store: Store

    ghost predicate Valid()
      reads this, store
    {
      store.Valid()
    }

    constructor (store: Store)
      requires store.Valid()
      ensures Valid() && this.store == store
    {
      this.store := store;
    }

    /**
      Accept a message, or answer with the one its client key already names. The call takes at
      most one action of its own: a requeue when the key names a message whose task reads as
      failed, a reservation when it names none. Its outcome is what that action was answered: a
      refusal writes nothing, any other outcome names a stored message of this session and key.
    */
    method SendMessage(draft: Draft, limit: int, checks: Checks)
      returns (outcome: SendOutcome, ghost looked: nat, ghost read: nat, ghost r: Reads, ghost answer: Answer, ghost took: seq<Statement>)
      requires Valid()
      modifies store
      ensures store.Went() && old(store.states) <= store.states && store.acts == old(store.acts) + took
      ensures !checks.session ==> took == [] && outcome == NotSent(ChecksFailed)
      ensures checks.session ==>
                && |old(store.trace)| <= looked && ReadThere(store.states, looked, read, draft, r)
                && (r.existing.Some? ==> ResentAs(r.existing.value, checks.stored, r.failed, took, answer, outcome))
                && (r.existing.None? ==> NewlySentAs(draft, limit, checks.content, took, answer, outcome))
      ensures !outcome.NotSent? ==> Stored(store.state.db, outcome.id, draft)
      ensures took != [] && took[0].action.Requeue? && !answer.TurnedAway? ==>
                EndsStartingOver(store.states, r.existing.value)
    {
      store.Others();
      looked, read, r, answer, took := |store.trace|, |store.trace|, Reads(None, false), Written, [];
      if !checks.session {
        return NotSent(ChecksFailed), looked, read, r, answer, took;
      }
      var existing;
      existing, looked, read, r := ReadKey(draft);
      ghost var states := store.states;
      outcome, answer, took := AnswerFor(existing, draft, limit, checks);
      ReadingLasts(states, store.states, looked, read, draft, r);
    }

    /** The key, and the task of the message that it names, at two moments of the run. */
    method ReadKey(draft: Draft) returns (existing: Option<Id>, ghost looked: nat, ghost read: nat, ghost r: Reads)
      requires Valid()
      modifies store
      ensures store.Went() && old(store.states) <= store.states && store.acts == old(store.acts) && existing == r.existing
      ensures |old(store.trace)| <= looked && ReadThere(store.states, looked, read, draft, r)
      ensures existing.Some? ==>
                Stored(store.state.db, existing.value, draft) && (r.failed <==> StatusOf(store.state.db, existing.value) == InTask(Failed))
    {
      looked := |store.trace|;
      existing := Lookup(store.state.db, draft);
      store.Others();
      read := |store.trace|;
      r := Reads(existing, existing.Some? && StatusOf(store.state.db, existing.value) == InTask(Failed));
    }

    /** What follows the lookup of the key. */
    method AnswerFor(existing: Option<Id>, draft: Draft, limit: int, checks: Checks)
      returns (outcome: SendOutcome, ghost answer: Answer, ghost took: seq<Statement>)
      requires Valid() && (existing.Some? ==> Stored(store.state.db, existing.value, draft))
      modifies store
      ensures store.Went() && old(store.states) <= store.states && store.acts == old(store.acts) + took
      ensures existing.Some? ==>
                ResentAs(existing.value, checks.stored, StatusOf(old(store.state.db), existing.value) == InTask(Failed), took, answer, outcome)
      ensures existing.None? ==> NewlySentAs(draft, limit, checks.content, took, answer, outcome)
      ensures !outcome.NotSent? ==> Stored(store.state.db, outcome.id, draft)
      ensures took != [] && took[0].action.Requeue? && !answer.TurnedAway? ==> existing.Some? && EndsStartingOver(store.states, existing.value)
    {
      answer, took := Written, [];
      if existing.Some? {
        outcome, answer, took := Resend(existing.value, draft, checks);
      } else if !checks.content {
        outcome := NotSent(ChecksFailed);
      } else {
        outcome, answer := ReserveMessage(draft, limit);
        took := [Statement(Send(limit, draft), answer)];
      }
    }

    /** A known key: the stored message is what counts, and a failed task is queued again. */
    method Resend(existing: Id, draft: Draft, checks: Checks) returns (outcome: SendOutcome, ghost answer: Answer, ghost took: seq<Statement>)
      requires Valid() && Stored(store.state.db, existing, draft)
      modifies store
      ensures store.Went() && old(store.states) <= store.states && Stored(store.state.db, existing, draft)
      ensures store.acts == old(store.acts) + took
      ensures ResentAs(existing, checks.stored, StatusOf(old(store.state.db), existing) == InTask(Failed), took, answer, outcome)
      ensures took != [] && !answer.TurnedAway? ==>
                EndsStartingOver(store.states, existing)
    {
      answer, took := Written, [];
      store.StateIsReachable();
      FailedIsItsStatus(store.state, existing);
      var failed := HasFailed(store.state.db, existing);
      store.Others();
      if !checks.stored {
        outcome := NotSent(ChecksFailed);
      } else if failed {
        outcome, answer := RequeueFailedTask(existing);
        took := [Statement(Requeue(existing), answer)];
      } else {
        outcome := AlreadyKnown(existing);
      }
    }

    method RequeueFailedTask(message: Id) returns (outcome: SendOutcome, ghost answer: Answer)
      requires Valid()
      modifies store
      ensures store.Went() && old(store.states) <= store.states && FactsKept(old(store.state), store.state)
      ensures store.acts == old(store.acts) + [Statement(Requeue(message), answer)]
      ensures outcome == if answer.TurnedAway? then NotSent(NotReserved(answer.refusal)) else AlreadyKnown(message)
      ensures !outcome.NotSent? ==> EndsStartingOver(store.states, message)
      ensures outcome.NotSent? <==> store.capacity <= 0 || |ActiveTasks(old(store.state.db))| >= store.capacity
      ensures outcome.NotSent? ==> outcome.failure == NotReserved(QueueBusy) && store.state == old(store.state)
      ensures !outcome.NotSent? ==>
                && store.state.db.messages == old(store.state.db.messages)
                && store.state.db.tasks.Keys == old(store.state.db.tasks).Keys
                && forall k <- old(store.state.db.tasks) ::
                     var t := old(store.state.db.tasks[k]);
                     store.state.db.tasks[k] == if t.message != message || t.status != Failed then t
                                                else t.(status := Queued, attempts := 0, leaseToken := None,
                                                        leaseExpiresAt := None, runAfter := store.state.db.now)
    {
      store.StateIsReachable();
      if AnswerTo(store.state, Requeue(message)) == Written {
        RequeueStartsOver(store.state, message);
      }
      var result := RequeueWithAdmission(store.state.db, store.capacity, message);
      answer := AnswerTo(store.state, Requeue(message));
      store.Act(Requeue(message));
      outcome := if result.Err? then NotSent(NotReserved(result.error)) else AlreadyKnown(message);
    }

    /** The reservation looks the key up again under the session lock. */
    method ReserveMessage(draft: Draft, limit: int) returns (outcome: SendOutcome, ghost answer: Answer)
      requires Valid()
      modifies store
      ensures store.Went() && old(store.states) <= store.states
      ensures store.acts == old(store.acts) + [Statement(Send(limit, draft), answer)]
      ensures store.state == Step(old(store.state), Send(limit, draft))
      ensures SendIsAnswered(old(store.state), limit, draft, answer)
      ensures ReservedAs(draft, answer, outcome)
      ensures !outcome.NotSent? ==> Stored(store.state.db, outcome.id, draft)
    {
      store.StateIsReachable();
      ReservationIsExact(store.state, limit, draft);
      answer := AnswerTo(store.state, Send(limit, draft));
      var result := Reserve(store.state.db, store.capacity, limit, draft);
      store.Act(Send(limit, draft));
      match result {
        case Err(error) => outcome := NotSent(NotReserved(error));
        case Ok(reserved) =>
          outcome := if reserved.existing.Some? then AlreadyKnown(reserved.existing.value) else Accepted(draft.id);
      }
    }
  }

  /** Two answers under one client key, at any two moments of one run, name the same message. */
  lemma OneKeyOneAnswer(capacity: int, trace: seq<Action>, more: seq<Action>, a: Id, b: Id, first: Draft, second: Draft)
    requires first.session == second.session && first.client == second.client && first.client.Some?
    requires Stored(Run(Init(capacity), trace).db, a, first) && Stored(Run(Init(capacity), trace + more).db, b, second)
    ensures a == b
  {
    RunInTwo(Init(capacity), trace, more);
    FactsAreNeverUndone(Run(Init(capacity), trace), more);
    ReachableSatisfiesInv(capacity, trace + more);
    assert SameClientKey(Run(Init(capacity), trace + more).db, a, b);
  }
}
