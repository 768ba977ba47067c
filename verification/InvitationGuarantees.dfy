/** The lead form is offered at most once a session, by the turn that consumes the invitation. */
module InvitationGuarantees {
  import opened Options
  import opened MessageTables
  import opened MessageProtocol
  import opened MessageInvariant
  import opened MessageGuarantees

  lemma {:induction false} OfferIsListed(offers: seq<Offer>, session: Session)
    ensures OffersTo(offers, session) > 0 <==> exists o <- offers :: o.session == session
    decreases |offers|
  {
    if offers != [] {
      var rest := offers[..|offers| - 1];
      OfferIsListed(rest, session);
      assert offers == rest + [offers[|offers| - 1]];
    }
  }

  /** At most one committed offer a session; there is one exactly when the session left not_invited. */
  lemma OneOfferPerSession(capacity: int, trace: seq<Action>, session: Session)
    ensures var s := Run(Init(capacity), trace);
            && OffersTo(s.offers, session) <= 1
            && ((exists o <- s.offers :: o.session == session)
                <==> InviteOf(s.db, session).Some? && InviteOf(s.db, session).value != NotInvited)
            && (forall o <- s.offers :: HasReply(s.db, o.message))
  {
    ReachableSatisfiesInv(capacity, trace);
    var s := Run(Init(capacity), trace);
    OfferIsListed(s.offers, session);
    assert OffersTo(s.offers, session) == if StillNotInvited(s.db, session) then 0 else 1;
  }

  /** Only a committed offer opens an invitation, together with its reply and the end of its task. */
  lemma InvitationOpensWithItsReply(s: State, a: Action, session: Session)
    requires InvitationsMatch(s) && StillNotInvited(s.db, session) && !StillNotInvited(Step(s, a).db, session)
    ensures var s' := Step(s, a);
            && a.Commit? && a.reply.offer && a.task in s.db.tasks && s.db.tasks[a.task].session == session
            && InviteOf(s'.db, session) == Some(Invited)
            && RepliesTo(s'.db, a.reply.id, s.db.tasks[a.task].message)
            && s'.db.tasks[a.task].status == Completed
            && s'.offers == s.offers + [Offer(session, s.db.tasks[a.task].message)]
  {
    match a
    case Commit(task, token, reply) =>
      if TryCommit(s.db, task, token, reply).Ok? {
        CommitShape(s.db, task, token, reply);
      }
    case _ =>
  }

  /** not_invited, then invited, then the visitor's decision for good. */
  function Stage(invite: Option<Invite>): nat {
    match invite
    case None => 0
    case Some(NotInvited) => 0
    case Some(Invited) => 1
    case Some(_) => 2
  }

  lemma InviteStepsForward(s: State, a: Action, session: Session)
    requires InvitationsMatch(s)
    ensures var before, after := InviteOf(s.db, session), InviteOf(Step(s, a).db, session);
            && Stage(before) <= Stage(after) <= Stage(before) + 1
            && (Stage(before) == 2 ==> after == before)
            && (Stage(before) == 1 && after != before ==> a.Decide? && a.session == session)
  {
    match a
    case Commit(task, token, reply) =>
      if TryCommit(s.db, task, token, reply).Ok? {
        CommitShape(s.db, task, token, reply);
      }
    case _ =>
  }

  lemma {:induction false} DecisionIsNeverLeft(s: State, trace: seq<Action>, session: Session)
    requires Inv(s)
    ensures var before, after := InviteOf(s.db, session), InviteOf(Run(s, trace).db, session);
            Stage(before) <= Stage(after) && (Stage(before) == 2 ==> after == before)
    decreases |trace|
  {
    if trace != [] {
      DecisionIsNeverLeft(s, trace[..|trace| - 1], session);
      RunKeepsInv(s, trace[..|trace| - 1]);
      InviteStepsForward(Run(s, trace[..|trace| - 1]), trace[|trace| - 1], session);
    }
  }

  // ---- Which reply shows the form ------------------------------------------------------------

  /** The intent branch of the next action of an assistant message. */
  predicate ShowsForm(db: Tables, reply: Id) {
    && IsReply(db, reply) && !db.messages[reply].refusal
    && db.messages[reply].session in db.intents
    && db.intents[db.messages[reply].session].invite == Invited
    && Some(db.intents[db.messages[reply].session].analyzed) == db.messages[reply].replyTo
  }

  lemma OneReplyShowsForm(capacity: int, trace: seq<Action>, a: Id, b: Id)
    requires var db := Run(Init(capacity), trace).db;
             ShowsForm(db, a) && ShowsForm(db, b) && db.messages[a].session == db.messages[b].session
    ensures a == b
  {
    ReachableSatisfiesInv(capacity, trace);
    var db := Run(Init(capacity), trace).db;
    assert RepliesTo(db, a, db.messages[a].replyTo.value) && RepliesTo(db, b, db.messages[a].replyTo.value);
  }

  lemma StepPinsAnalyzedMessage(s: State, a: Action, session: Session)
    requires !StillNotInvited(s.db, session)
    ensures var db := Step(s, a).db;
            !StillNotInvited(db, session) && db.intents[session].analyzed == s.db.intents[session].analyzed
  {
    match a
    case Commit(task, token, reply) =>
      if TryCommit(s.db, task, token, reply).Ok? {
        CommitShape(s.db, task, token, reply);
      }
    case _ =>
  }

  lemma {:induction false} AnalyzedMessageIsPinned(s: State, trace: seq<Action>, session: Session)
    requires !StillNotInvited(s.db, session)
    ensures var db := Run(s, trace).db;
            !StillNotInvited(db, session) && db.intents[session].analyzed == s.db.intents[session].analyzed
    decreases |trace|
  {
    if trace != [] {
      AnalyzedMessageIsPinned(s, trace[..|trace| - 1], session);
      StepPinsAnalyzedMessage(Run(s, trace[..|trace| - 1]), trace[|trace| - 1], session);
    }
  }

  /**
    The turn that consumes the invitation shows the form exactly when it is no refusal and its
    own message was the last one analyzed; whatever runs later, that never changes while the
    invitation stays open.
  */
  lemma OfferingReplyShowsFormExactlyWhen(s: State, task: Id, token: Token, reply: Reply, later: seq<Action>)
    requires TryCommit(s.db, task, token, reply).Ok? && reply.offer
    requires InviteOf(Run(Step(s, Commit(task, token, reply)), later).db, s.db.tasks[task].session) == Some(Invited)
    ensures var db := Run(Step(s, Commit(task, token, reply)), later).db;
            var t := s.db.tasks[task];
            ShowsForm(db, reply.id) <==> !reply.refusal && t.session in s.db.intents
                                         && s.db.intents[t.session].analyzed == t.message
  {
    CommitShape(s.db, task, token, reply);
    var s1 := Step(s, Commit(task, token, reply));
    AnalyzedMessageIsPinned(s1, later, s.db.tasks[task].session);
    FactsAreNeverUndone(s1, later);
  }

  /**
    A run in which the form shows on the wrong reply: the analysis of message 1 failed at first
    and is repeated between the analysis and the reply of message 2, so message 2 consumes the
    invitation while message 1 is the analyzed one.
  */
  lemma FormCanShowOnAnotherReply()
    ensures var s := Run(Init(9), MisplacedForm());
            && s.offers == [Offer(1, 2)]
            && RepliesTo(s.db, 10, 1) && RepliesTo(s.db, 20, 2)
            && ShowsForm(s.db, 10) && !ShowsForm(s.db, 20)
  {
    var t := MisplacedForm();
    FirstTurn();
    SecondTurnLeased();
    TwoAnalyses();
    assert t[..3] + t[3..5] == t[..5] && t[..5] + t[5..8] == t[..8] && t[..8] + t[8..] == t;
    RunInTwo(Init(9), t[..3], t[3..5]);
    RunInTwo(Init(9), t[..5], t[5..8]);
    assert t == t[..8] + [t[8]];
    RunOneMore(Init(9), t[..8], t[8]);
    SecondTurnCommits();
  }

  function MisplacedForm(): seq<Action> {
    [Send(9, Draft(1, 1, None, ToAgent(1))), TakeLease(1, 1), Commit(1, 1, Reply(10, [], false, false)),
     Send(9, Draft(2, 1, None, ToAgent(2))), TakeLease(2, 2),
     ReadIntent(1), WriteIntent(1, 2, High, None), WriteIntent(1, 1, High, None),
     Commit(2, 2, Reply(20, [], false, true))]
  }

  const ASKED := Message(1, Visitor, None, None, false, 0)
  const DONE := Task(1, 1, Completed, 1, MAX_ATTEMPTS, 0, None, None)
  const RUNNING := Task(2, 1, Processing, 1, MAX_ATTEMPTS, 0, Some(2), Some(LEASE_DURATION))

  function Answer(message: Id): Message {
    Message(1, Assistant, None, Some(message), false, 0)
  }

  function AfterFirstTurn(): State {
    State(Tables(map[1 := ASKED, 10 := Answer(1)], map[1 := DONE], map[], map[], 0), 9, {1}, {}, [])
  }

  function AfterSecondLease(): State {
    State(Tables(map[1 := ASKED, 10 := Answer(1), 2 := ASKED], map[1 := DONE, 2 := RUNNING], map[], map[], 0), 9, {1, 2}, {}, [])
  }

  function AfterAnalyses(): State {
    var s := AfterSecondLease();
    s.(db := s.db.(intents := map[1 := Intent(High, 1, NotInvited)]), seen := {(1, None)})
  }

  function FirstTurnAt(task: Task): State {
    State(Tables(map[1 := ASKED], map[1 := task], map[], map[], 0), 9, if task.status == Queued then {} else {1}, {}, [])
  }

  const WAITING := Task(1, 1, Queued, 0, MAX_ATTEMPTS, 0, None, None)
  const STARTED := Task(1, 1, Processing, 1, MAX_ATTEMPTS, 0, Some(1), Some(LEASE_DURATION))

  lemma FirstTurn()
    ensures Run(Init(9), MisplacedForm()[..3]) == AfterFirstTurn()
  {
    var t := MisplacedForm();
    assert t[..3] == [t[0], t[1], t[2]];
    RunOfThree(Init(9), t[0], t[1], t[2]);
    FirstSend();
    FirstLease();
    FirstCommit();
  }

  lemma FirstSend()
    ensures Step(Init(9), MisplacedForm()[0]) == FirstTurnAt(WAITING)
  {
    assert VisitorMessages(Init(9).db, 1) == {} && ActiveTasks(Init(9).db) == {};
  }

  lemma FirstLease()
    ensures Step(FirstTurnAt(WAITING), MisplacedForm()[1]) == FirstTurnAt(STARTED)
  {
    assert Leasable(FirstTurnAt(WAITING).db, 1);
  }

  lemma FirstCommit()
    ensures Step(FirstTurnAt(STARTED), MisplacedForm()[2]) == AfterFirstTurn()
  {
    assert Held(FirstTurnAt(STARTED).db, 1, 1);
    assert InsertMessage(FirstTurnAt(STARTED).db, 10, Answer(1)).Some?;
  }

  function AfterSecondSend(): State {
    State(Tables(map[1 := ASKED, 10 := Answer(1), 2 := ASKED],
                 map[1 := DONE, 2 := Task(2, 1, Queued, 0, MAX_ATTEMPTS, 0, None, None)], map[], map[], 0), 9, {1}, {}, [])
  }

  lemma SecondTurnSent()
    ensures Step(AfterFirstTurn(), MisplacedForm()[3]) == AfterSecondSend()
  {
    var s3 := AfterFirstTurn();
    assert VisitorMessages(s3.db, 1) == {1} && ActiveTasks(s3.db) == {};
  }

  lemma SecondTurnLeased()
    ensures Run(AfterFirstTurn(), MisplacedForm()[3..5]) == AfterSecondLease()
  {
    var t := MisplacedForm();
    assert t[3..5] == [t[3], t[4]];
    RunOfThree(AfterFirstTurn(), t[3], t[4], t[4]);
    SecondTurnSent();
    assert Leasable(AfterSecondSend().db, 2);
  }

  lemma TwoAnalyses()
    ensures Run(AfterSecondLease(), MisplacedForm()[5..8]) == AfterAnalyses()
  {
    var t := MisplacedForm();
    assert t[5..8] == [t[5], t[6], t[7]];
    RunOfThree(AfterSecondLease(), t[5], t[6], t[7]);
  }

  lemma SecondTurnCommits()
    ensures var s := Step(AfterAnalyses(), MisplacedForm()[8]);
            && s.offers == [Offer(1, 2)]
            && RepliesTo(s.db, 10, 1) && RepliesTo(s.db, 20, 2)
            && ShowsForm(s.db, 10) && !ShowsForm(s.db, 20)
  {
    var s8 := AfterAnalyses();
    assert Held(s8.db, 2, 2) && InviteOf(s8.db, 1) == Some(NotInvited);
    assert InsertMessage(s8.db, 20, Answer(2)).Some?;
  }
}
