/**
  The four tables behind the AICC message pipeline and the SQL statements that touch them.

  One function per statement. A statement that can violate a key returns an Option; a
  conditional UPDATE returns the new tables and the number of rows it hit. Times are the
  microseconds of the database clock; identifiers are opaque and only compared.
*/
module MessageTables {
  import opened Options

  type Id = nat
  type Token = nat
  type Session = nat
  type ClientKey = nat

  const SECOND := 1_000_000
  const LEASE_DURATION := 30 * SECOND
  const MAX_ATTEMPTS := 5

  datatype Direction = Visitor | Assistant

  datatype Message = Message(session: Session, direction: Direction, client: Option<ClientKey>,
                             replyTo: Option<Id>, refusal: bool, createdAt: int)

  datatype Status = Queued | Processing | RetryWait | Completed | Failed

  datatype Task = Task(message: Id, session: Session, status: Status, attempts: nat, maxAttempts: nat,
                       runAfter: int, leaseToken: Option<Token>, leaseExpiresAt: Option<int>)

  datatype Invite = NotInvited | Invited | Declined | Submitted

  datatype Level = Low | Medium | High

  datatype Intent = Intent(level: Level, analyzed: Id, invite: Invite)

  /** sources maps the id of a source row to the assistant message it belongs to. */
  datatype Tables = Tables(messages: map<Id, Message>, tasks: map<Id, Task>, intents: map<Session, Intent>,
                           sources: map<Id, Id>, now: int)

  predicate Terminal(status: Status) {
    status == Completed || status == Failed
  }

  // ---- Messages ------------------------------------------------------------------------------

  /** The unique key (session_id, direction, client_message_id): NULL keys never collide. */
  predicate ClientKeyTaken(db: Tables, session: Session, direction: Direction, client: Option<ClientKey>) {
    client.Some? && exists id <- db.messages ::
      var m := db.messages[id];
      m.session == session && m.direction == direction && m.client == client
  }

  function InsertMessage(db: Tables, id: Id, m: Message): Option<Tables> {
    if id in db.messages || ClientKeyTaken(db, m.session, m.direction, m.client)
       || (m.replyTo.Some? && m.replyTo.value !in db.messages)
    then None
    else Some(db.(messages := db.messages[id := m]))
  }

  predicate RepliesTo(db: Tables, reply: Id, visitor: Id) {
    reply in db.messages && db.messages[reply].direction == Assistant && db.messages[reply].replyTo == Some(visitor)
  }

  ghost predicate HasReply(db: Tables, visitor: Id) {
    exists reply :: RepliesTo(db, reply, visitor)
  }

  predicate SentAs(db: Tables, id: Id, session: Session, client: ClientKey) {
    id in db.messages && db.messages[id].direction == Visitor
    && db.messages[id].session == session && db.messages[id].client == Some(client)
  }

  function VisitorMessages(db: Tables, session: Session): set<Id> {
    set id <- db.messages | db.messages[id].direction == Visitor && db.messages[id].session == session
  }

  /** SELECT by the client key. The unique key leaves at most one row, so the least id is that row. */
  function FindByClient(db: Tables, session: Session, client: ClientKey): (r: Option<Id>)
    ensures r.Some? ==> SentAs(db, r.value, session, client)
    ensures r.None? ==> forall id <- db.messages :: !SentAs(db, id, session, client)
  {
    var hits := set id <- db.messages | SentAs(db, id, session, client);
    if hits == {} then
      assert forall id <- db.messages | SentAs(db, id, session, client) :: id in hits;
      None
    else Some(Least(hits))
  }

  predicate IsLeast(least: Id, ids: set<Id>) {
    least in ids && forall id <- ids :: least <= id
  }

  function Least(ids: set<Id>): (least: Id)
    requires ids != {}
    ensures IsLeast(least, ids)
  {
    LeastExists(ids);
    var least :| IsLeast(least, ids);
    least
  }

  lemma {:induction false} LeastExists(ids: set<Id>)
    requires ids != {}
    ensures exists least :: IsLeast(least, ids)
    decreases |ids|
  {
    var x :| x in ids;
    var rest := ids - {x};
    if rest == {} {
      assert ids == {x} && IsLeast(x, ids);
    } else {
      LeastExists(rest);
      var least :| IsLeast(least, rest);
      assert ids == rest + {x};
      assert IsLeast(if x <= least then x else least, ids);
    }
  }

  // ---- Tasks ---------------------------------------------------------------------------------

  function ActiveTasks(db: Tables): set<Id> {
    set k <- db.tasks | !Terminal(db.tasks[k].status)
  }

  /** New rows take the column defaults: queued, no attempts, five attempts at most. */
  function InsertTask(db: Tables, id: Id, message: Id, session: Session, runAfter: int): Option<Tables> {
    if id in db.tasks || message !in db.messages || exists k <- db.tasks :: db.tasks[k].message == message
    then None
    else Some(db.(tasks := db.tasks[id := Task(message, session, Queued, 0, MAX_ATTEMPTS, runAfter, None, None)]))
  }

  /** Message order inside a session: creation time, then id. */
  predicate Before(db: Tables, a: Id, b: Id) {
    a in db.messages && b in db.messages
    && (db.messages[a].createdAt < db.messages[b].createdAt
        || (db.messages[a].createdAt == db.messages[b].createdAt && a < b))
  }

  predicate Leasable(db: Tables, id: Id) {
    && id in db.tasks
    && db.tasks[id].message in db.messages
    && (db.tasks[id].status == Queued || db.tasks[id].status == RetryWait)
    && db.tasks[id].attempts < db.tasks[id].maxAttempts
    && db.tasks[id].runAfter <= db.now
    && forall k <- db.tasks | db.tasks[k].session == db.tasks[id].session ::
         && db.tasks[k].status != Processing
         && (Terminal(db.tasks[k].status) || !Before(db, db.tasks[k].message, db.tasks[id].message))
  }

  function Lease(db: Tables, id: Id, token: Token): (Tables, nat) {
    if Leasable(db, id) then
      var t := db.tasks[id];
      (db.(tasks := db.tasks[id := t.(status := Processing, leaseToken := Some(token),
                                      leaseExpiresAt := Some(db.now + LEASE_DURATION), attempts := t.attempts + 1)]), 1)
    else (db, 0)
  }

  /** The compare half of every compare-and-set by a worker. */
  predicate Held(db: Tables, id: Id, token: Token) {
    id in db.tasks && db.tasks[id].status == Processing && db.tasks[id].leaseToken == Some(token)
  }

  function Ended(t: Task, status: Status): Task {
    t.(status := status, leaseToken := None, leaseExpiresAt := None)
  }

  /** One failed attempt: the last attempt ends the task, any other waits until runAfter. */
  function Retried(t: Task, runAfter: int): Task {
    if t.attempts >= t.maxAttempts then Ended(t, Failed) else Ended(t, RetryWait).(runAfter := runAfter)
  }

  function Renew(db: Tables, id: Id, token: Token): (Tables, nat) {
    if Held(db, id, token)
    then (db.(tasks := db.tasks[id := db.tasks[id].(leaseExpiresAt := Some(db.now + LEASE_DURATION))]), 1)
    else (db, 0)
  }

  function Complete(db: Tables, id: Id, token: Token): (Tables, nat) {
    if Held(db, id, token) then (db.(tasks := db.tasks[id := Ended(db.tasks[id], Completed)]), 1) else (db, 0)
  }

  function Retry(db: Tables, id: Id, token: Token, runAfter: int): (Tables, nat) {
    if Held(db, id, token) then (db.(tasks := db.tasks[id := Retried(db.tasks[id], runAfter)]), 1) else (db, 0)
  }

  function Fail(db: Tables, id: Id, token: Token): (Tables, nat) {
    if Held(db, id, token) then (db.(tasks := db.tasks[id := Ended(db.tasks[id], Failed)]), 1) else (db, 0)
  }

  predicate Expired(t: Task, now: int) {
    t.status == Processing && t.leaseExpiresAt.Some? && t.leaseExpiresAt.value <= now
  }

  function RecoverExpired(db: Tables): Tables {
    db.(tasks := map k <- db.tasks :: if Expired(db.tasks[k], db.now) then Retried(db.tasks[k], db.now) else db.tasks[k])
  }

  function RequeueFailed(db: Tables, message: Id): Tables {
    db.(tasks := map k <- db.tasks ::
          if db.tasks[k].message == message && db.tasks[k].status == Failed
          then Ended(db.tasks[k], Queued).(attempts := 0, runAfter := db.now)
          else db.tasks[k])
  }

  // ---- Intent --------------------------------------------------------------------------------

  function InviteOf(db: Tables, session: Session): Option<Invite> {
    if session in db.intents then Some(db.intents[session].invite) else None
  }

  /** A duplicate key never rewrites invite_status, and pins analyzed_message_id once invited. */
  function UpsertIntent(db: Tables, session: Session, level: Level, analyzed: Id, invite: Invite): Tables {
    if session in db.intents then
      var old' := db.intents[session];
      db.(intents := db.intents[session := Intent(level, if old'.invite == NotInvited then analyzed else old'.analyzed,
                                                  old'.invite)])
    else db.(intents := db.intents[session := Intent(level, analyzed, invite)])
  }

  function ConsumeInvitation(db: Tables, session: Session): (Tables, nat) {
    if InviteOf(db, session) == Some(NotInvited)
    then (db.(intents := db.intents[session := db.intents[session].(invite := Invited)]), 1)
    else (db, 0)
  }

  /** The visitor's own decision, declined or submitted; only an open invitation can be decided. */
  function DecideInvitation(db: Tables, session: Session, decision: Invite): Tables {
    if InviteOf(db, session) == Some(Invited)
    then db.(intents := db.intents[session := db.intents[session].(invite := decision)])
    else db
  }

  // ---- Transactions --------------------------------------------------------------------------

  function InsertSources(db: Tables, reply: Id, ids: seq<Id>): Option<Tables>
    decreases |ids|
  {
    if ids == [] then Some(db)
    else if ids[0] in db.sources || reply !in db.messages then None
    else InsertSources(db.(sources := db.sources[ids[0] := reply]), reply, ids[1..])
  }

  datatype CommitError = DuplicateKey | OfferTaken | LeaseLost

  /** What a worker wants to write for one turn. */
  datatype Reply = Reply(id: Id, sources: seq<Id>, refusal: bool, offer: bool)

  /** The transaction that ends a turn: reply, sources, invitation, then the compare-and-set on the task. */
  function CommitReply(db: Tables, id: Id, token: Token, visitor: Id, session: Session, client: Option<ClientKey>,
                       reply: Reply): Result<Tables, CommitError>
  {
    match InsertMessage(db, reply.id, Message(session, Assistant, client, Some(visitor), reply.refusal, db.now / SECOND))
    case None => Err(DuplicateKey)
    case Some(db1) =>
      match InsertSources(db1, reply.id, reply.sources)
      case None => Err(DuplicateKey)
      case Some(db2) =>
        var (db3, consumed) := if reply.offer then ConsumeInvitation(db2, session) else (db2, 1);
        if consumed != 1 then Err(OfferTaken)
        else
          var (db4, rows) := Complete(db3, id, token);
          if rows != 1 then Err(LeaseLost) else Ok(db4)
  }

  datatype SendError = LimitExceeded | QueueBusy | WriteFailed

  /** A message for the agent gets a task; a locally refused one gets its reply at once. */
  datatype Route = ToAgent(task: Id) | Refused(reply: Id)

  datatype Draft = Draft(id: Id, session: Session, client: Option<ClientKey>, route: Route)

  /** What a reservation did: the tables it leaves, and the earlier message when the client key was known. */
  datatype Reserved = Reserved(db: Tables, existing: Option<Id>)

  function VisitorRow(db: Tables, draft: Draft): Message {
    Message(draft.session, Visitor, draft.client, None, false, db.now / SECOND)
  }

  function RefusalRow(db: Tables, draft: Draft): Message {
    Message(draft.session, Assistant, draft.client, Some(draft.id), true, db.now / SECOND)
  }

  /** The insert half of the reservation. */
  function WriteDraft(db: Tables, draft: Draft): Option<Tables> {
    match InsertMessage(db, draft.id, VisitorRow(db, draft))
    case None => None
    case Some(db1) =>
      match draft.route
      case ToAgent(task) => InsertTask(db1, task, draft.id, draft.session, db.now)
      case Refused(reply) => InsertMessage(db1, reply, RefusalRow(db, draft))
  }

  /**
    The reservation transaction, with counted as the number of active tasks it read. The
    transaction locks the session, so the client key is looked up again before anything is written.
  */
  function ReserveCounting(db: Tables, capacity: int, counted: nat, limit: int, draft: Draft): Result<Reserved, SendError> {
    var existing := if draft.client.Some? then FindByClient(db, draft.session, draft.client.value) else None;
    if existing.Some? then Ok(Reserved(db, existing))
    else if |VisitorMessages(db, draft.session)| >= limit then Err(LimitExceeded)
    else if draft.route.ToAgent? && (capacity <= 0 || counted >= capacity) then Err(QueueBusy)
    else
      match WriteDraft(db, draft)
      case None => Err(WriteFailed)
      case Some(db') => Ok(Reserved(db', None))
  }

  /** Counting under the governance lock sees every committed task. */
  function Reserve(db: Tables, capacity: int, limit: int, draft: Draft): Result<Reserved, SendError> {
    ReserveCounting(db, capacity, |ActiveTasks(db)|, limit, draft)
  }

  function RequeueWithAdmission(db: Tables, capacity: int, message: Id): Result<Tables, SendError> {
    if capacity <= 0 || |ActiveTasks(db)| >= capacity then Err(QueueBusy) else Ok(RequeueFailed(db, message))
  }
}
