/**
  The message and task protocol as a state machine: any number of senders, workers, reapers
  and visitors, each action one committed statement or transaction, in any order. An agent may
  take an action at any time, with any token that was ever issued, and may stop for good after
  any of its actions, so a crash needs no action of its own.
*/
module MessageProtocol {
  import opened Options
  import opened MessageTables

  datatype Offer = Offer(session: Session, message: Id)

  /**
    tokens, seen and offers are history: lease tokens ever issued, invitation states ever read
    by an analysis, and the turns that committed an offer, in order.
  */
  datatype State = State(db: Tables, capacity: int, tokens: set<Token>,
                         seen: set<(Session, Option<Invite>)>, offers: seq<Offer>)

  datatype Action =
    | Tick(elapsed: nat)
    | Send(limit: int, draft: Draft)
    | Requeue(message: Id)
    | TakeLease(task: Id, token: Token)
    | Heartbeat(task: Id, token: Token)
    | RecoverLeases
    | ReadIntent(session: Session)
    | WriteIntent(session: Session, message: Id, level: Level, seen: Option<Invite>)
    | Commit(task: Id, token: Token, reply: Reply)
    | GiveBack(task: Id, token: Token, runAfter: int)
    | GiveUp(task: Id, token: Token)
    | Decide(session: Session, submitted: bool)

  // ---- Decisions made by an analysis ---------------------------------------------------------

  function SeenInvite(seen: Option<Invite>): Invite {
    if seen.Some? then seen.value else NotInvited
  }

  predicate AllowOffer(level: Level, seen: Option<Invite>) {
    level == High && SeenInvite(seen) == NotInvited
  }

  function NextInvite(level: Level, previous: Invite): Invite {
    if level == High && previous == NotInvited then Invited else previous
  }

  /** The invitation state an analysis writes: an allowed offer is consumed later, by the reply. */
  function WrittenInvite(level: Level, seen: Option<Invite>): Invite {
    if AllowOffer(level, seen) then SeenInvite(seen) else NextInvite(level, SeenInvite(seen))
  }

  // ---- Steps ---------------------------------------------------------------------------------

  function Init(capacity: int): State {
    State(Tables(map[], map[], map[], map[], 0), capacity, {}, {}, [])
  }

  function ClientOf(db: Tables, message: Id): Option<ClientKey> {
    if message in db.messages then db.messages[message].client else None
  }

  function TryCommit(db: Tables, task: Id, token: Token, reply: Reply): Result<Tables, CommitError> {
    if task !in db.tasks then Err(LeaseLost)
    else
      var t := db.tasks[task];
      CommitReply(db, task, token, t.message, t.session, ClientOf(db, t.message), reply)
  }

  /** An action that its guard, a key or a transaction refuses leaves the state as it was. */
  function Step(s: State, a: Action): State {
    match a
    case Tick(elapsed) => s.(db := s.db.(now := s.db.now + elapsed))
    case Send(limit, draft) =>
      (match Reserve(s.db, s.capacity, limit, draft)
       case Ok(r) => s.(db := r.db)
       case Err(_) => s)
    case Requeue(message) =>
      (match RequeueWithAdmission(s.db, s.capacity, message)
       case Ok(db) => s.(db := db)
       case Err(_) => s)
    case TakeLease(task, token) =>
      if token in s.tokens then s
      else s.(db := Lease(s.db, task, token).0, tokens := s.tokens + {token})
    case Heartbeat(task, token) => s.(db := Renew(s.db, task, token).0)
    case RecoverLeases => s.(db := RecoverExpired(s.db))
    case ReadIntent(session) => s.(seen := s.seen + {(session, InviteOf(s.db, session))})
    case WriteIntent(session, message, level, seen) =>
      if (session, seen) !in s.seen then s
      else s.(db := UpsertIntent(s.db, session, level, message, WrittenInvite(level, seen)))
    case Commit(task, token, reply) =>
      (match TryCommit(s.db, task, token, reply)
       case Ok(db) =>
         s.(db := db,
            offers := if reply.offer then s.offers + [Offer(s.db.tasks[task].session, s.db.tasks[task].message)]
                      else s.offers)
       case Err(_) => s)
    case GiveBack(task, token, runAfter) => s.(db := Retry(s.db, task, token, runAfter).0)
    case GiveUp(task, token) => s.(db := Fail(s.db, task, token).0)
    case Decide(session, submitted) =>
      s.(db := DecideInvitation(s.db, session, if submitted then Submitted else Declined))
  }

  function Run(s: State, trace: seq<Action>): State {
    if trace == [] then s else Step(Run(s, trace[..|trace| - 1]), trace[|trace| - 1])
  }

  // ---- The invariant -------------------------------------------------------------------------

  ghost predicate TaskIsSound(s: State, t: Task) {
    && t.message in s.db.messages
    && s.db.messages[t.message].direction == Visitor
    && s.db.messages[t.message].session == t.session
    && t.attempts <= t.maxAttempts == MAX_ATTEMPTS
    && (t.status == Queued || t.status == RetryWait ==> t.attempts < t.maxAttempts)
    && (t.status == Processing <==> t.leaseToken.Some?)
    && (t.status == Processing <==> t.leaseExpiresAt.Some?)
    && (t.status == Processing ==> t.attempts >= 1 && t.leaseToken.value in s.tokens)
  }

  predicate TaskFor(db: Tables, task: Id, message: Id) {
    task in db.tasks && db.tasks[task].message == message
  }

  ghost predicate TasksAreSound(s: State) {
    && (forall k <- s.db.tasks :: TaskIsSound(s, s.db.tasks[k]))
    && (forall j, k, message | TaskFor(s.db, j, message) && TaskFor(s.db, k, message) :: j == k)
  }

  /** Two running tasks that share a session or a token. */
  predicate Clash(db: Tables, j: Id, k: Id) {
    && j in db.tasks && k in db.tasks
    && db.tasks[j].status == Processing && db.tasks[k].status == Processing
    && (db.tasks[j].session == db.tasks[k].session || db.tasks[j].leaseToken == db.tasks[k].leaseToken)
  }

  ghost predicate LeasesAreExclusive(db: Tables) {
    forall j, k | Clash(db, j, k) :: j == k
  }

  /** The assistant message id answers a visitor message of its own session, under the same client key. */
  predicate AnswersAVisitor(db: Tables, id: Id)
    requires id in db.messages
  {
    var m := db.messages[id];
    && m.replyTo.Some? && m.replyTo.value in db.messages
    && var v := db.messages[m.replyTo.value];
       v.direction == Visitor && v.session == m.session && v.client == m.client
  }

  ghost predicate RepliesAreSound(db: Tables) {
    && (forall id <- db.messages | db.messages[id].direction == Assistant :: AnswersAVisitor(db, id))
    && (forall a, b, v | RepliesTo(db, a, v) && RepliesTo(db, b, v) :: a == b)
  }

  predicate IsReply(db: Tables, id: Id) {
    id in db.messages && db.messages[id].direction == Assistant
  }

  ghost predicate SourcesAreSound(db: Tables) {
    forall x <- db.sources :: IsReply(db, db.sources[x])
  }

  predicate SameClientKey(db: Tables, a: Id, b: Id) {
    && a in db.messages && b in db.messages
    && db.messages[a].session == db.messages[b].session
    && db.messages[a].direction == db.messages[b].direction
    && db.messages[a].client == db.messages[b].client && db.messages[a].client.Some?
  }

  ghost predicate ClientKeysAreUnique(db: Tables) {
    forall a, b | SameClientKey(db, a, b) :: a == b
  }

  ghost predicate HasTask(db: Tables, message: Id) {
    exists k :: TaskFor(db, k, message)
  }

  /** A task is completed exactly when its reply exists; a message without a task has its local reply. */
  ghost predicate EffectsMatch(db: Tables) {
    && (forall k <- db.tasks :: db.tasks[k].status == Completed <==> HasReply(db, db.tasks[k].message))
    && (forall v <- db.messages | db.messages[v].direction == Visitor :: HasTask(db, v) || HasReply(db, v))
  }

  /** Only a local refusal answers a message that has no task. */
  ghost predicate RefusalsMatch(db: Tables) {
    forall id <- db.messages | db.messages[id].direction == Assistant && db.messages[id].replyTo.Some? ::
      HasTask(db, db.messages[id].replyTo.value) || db.messages[id].refusal
  }

  ghost predicate WithinCapacity(s: State) {
    |ActiveTasks(s.db)| <= if s.capacity < 0 then 0 else s.capacity
  }

  /** How often a session was offered the form. */
  function OffersTo(offers: seq<Offer>, session: Session): nat {
    if offers == [] then 0
    else OffersTo(offers[..|offers| - 1], session) + if offers[|offers| - 1].session == session then 1 else 0
  }

  predicate StillNotInvited(db: Tables, session: Session) {
    session !in db.intents || db.intents[session].invite == NotInvited
  }

  ghost predicate InvitationsMatch(s: State) {
    && (forall session :: OffersTo(s.offers, session) == if StillNotInvited(s.db, session) then 0 else 1)
    && (forall offer <- s.offers :: HasReply(s.db, offer.message))
    && (forall r <- s.seen | r.1.Some? :: r.0 in s.db.intents)
  }

  ghost predicate Inv(s: State) {
    && TasksAreSound(s)
    && LeasesAreExclusive(s.db)
    && RepliesAreSound(s.db)
    && SourcesAreSound(s.db)
    && ClientKeysAreUnique(s.db)
    && EffectsMatch(s.db)
    && RefusalsMatch(s.db)
    && WithinCapacity(s)
    && InvitationsMatch(s)
  }
}
