/**
  One dispatch of one task, with everything the outside can answer as an input and the other
  agents acting between any two of its steps.
*/
module Dispatcher {
  import opened Options
  import opened MessageTables
  import opened MessageProtocol
  import opened MessageGuarantees
  import opened MessageStore
  import Probe = ProbeCircuit

  // ---- Failures and retries ------------------------------------------------------------------

  datatype Failure =
    | ConcurrencyLimited
    | RuntimeUnavailable
    | UpstreamStatus(code: int)
    | DeadlineExceeded
    | NetworkTimeout
    | OtherFailure

  predicate Retryable(failure: Failure) {
    match failure
    case UpstreamStatus(code) => code == 429 || code == 503 || code == 529
    case OtherFailure => false
    case _ => true
  }

  const RETRY_LADDER: seq<nat> := [2, 5, 10, 20, 40]

  /** The waiting time after an attempt, in microseconds: a five-step ladder whose last step repeats. */
  function RetryDelay(attempts: int): (delay: nat)
    ensures attempts <= 1 ==> delay == 2 * SECOND
    ensures attempts == 2 ==> delay == 5 * SECOND
    ensures attempts == 3 ==> delay == 10 * SECOND
    ensures attempts == 4 ==> delay == 20 * SECOND
    ensures attempts >= 5 ==> delay == 40 * SECOND
  {
    var i := attempts - 1;
    RETRY_LADDER[if i < 0 then 0 else if i >= |RETRY_LADDER| then |RETRY_LADDER| - 1 else i] * SECOND
  }

  // ---- Inputs and outcomes -------------------------------------------------------------------

  /** The task row as the scan returned it; only its identity is certain to be current. */
  datatype Row = Row(id: Id, message: Id, session: Session, attempts: nat, maxAttempts: nat)

  datatype CircuitCall = AllowCall(at: int) | OverloadCall(at: int) | SuccessCall | ReopenCall(at: int) | ReleaseCall

  /** What the shared circuit is told. */
  datatype Report = ReportOverload | ReportSuccess | ReportReopen

  datatype SharedAnswer = Allowed | Refused | Unreachable

  /**
    Every answer the outside gives during one dispatch. The renewals fall into four stretches:
    during the analysis, before its upsert, during the chat, and after the commit; a beat that is
    true could not reach the store.
  */
  datatype Outside = Outside(shared: SharedAnswer, startedAt: int, settledAt: int, jitter: nat,
                             token: Token, leaseFails: bool, limiter: Option<Failure>, reading: Option<Failure>,
                             analysis: Option<Level>, chat: Option<Failure>, reply: Reply,
                             analysisBeats: seq<bool>, upsertBeats: seq<bool>, chatBeats: seq<bool>,
                             lateBeats: seq<bool>, upsertFails: bool, commitFails: bool, updateFails: bool)

  datatype BeatError = RenewFailed | BeatFoundLeaseLost

  datatype Outcome =
    | CircuitOpen
    | NotClaimed
    | Done
    | GivenBack(failure: Failure, final: bool)
    | GivenUp(failure: Failure)
    | LostLease(failure: Failure)
    | UpdateFailed(failure: Failure)
    | HeartbeatFailed(beat: BeatError)
    | NotCommitted(cause: Option<CommitError>)

  /** What the shared circuit hears of a dispatch, by its outcome. */
  function ReportsOf(outcome: Outcome): seq<Report> {
    match outcome
    case CircuitOpen | HeartbeatFailed(_) => []
    case NotClaimed | NotCommitted(_) | GivenUp(_) => [ReportReopen]
    case Done => [ReportSuccess]
    case GivenBack(failure, _) => if failure == ConcurrencyLimited then [] else [ReportOverload]
    case LostLease(failure) => if Retryable(failure) then [] else [ReportReopen]
    case UpdateFailed(failure) => if Retryable(failure) then [] else [ReportReopen]
  }

  /** The outcomes after which the worker's token is on no task. */
  predicate LetsGo(outcome: Outcome) {
    outcome.Done? || outcome.GivenBack? || outcome.GivenUp? || outcome.LostLease?
    || outcome == HeartbeatFailed(BeatFoundLeaseLost) || outcome == NotCommitted(Some(LeaseLost))
  }

  ghost predicate TaskAnswered(db: Tables, row: Row, reply: Id) {
    RepliesTo(db, reply, row.message) && row.id in db.tasks && db.tasks[row.id].status == Completed
  }

  // ---- Renewals ------------------------------------------------------------------------------

  /** How many renewals of one stretch reached the store, and whether the last of them found the lease lost. */
  datatype Stretch = Stretch(renewals: nat, lost: bool)

  /** Some renewal could not reach the store. */
  predicate Broken(beats: seq<bool>) {
    beats != [] && (beats[0] || Broken(beats[1..]))
  }

  /** How many renewals reach the store before one cannot. */
  function Reached(beats: seq<bool>): nat {
    if beats == [] || beats[0] then 0 else 1 + Reached(beats[1..])
  }

  /** What has ended the renewals by the end of a stretch. */
  function After(before: Option<BeatError>, beats: seq<bool>, s: Stretch): Option<BeatError> {
    if before.Some? then before
    else if s.lost then Some(BeatFoundLeaseLost)
    else if Broken(beats) then Some(RenewFailed)
    else None
  }

  /** The worker renews until a renewal does not reach the store or finds the lease lost; then never again. */
  predicate Ran(before: Option<BeatError>, beats: seq<bool>, s: Stretch) {
    if before.Some? then s == Stretch(0, false)
    else if s.lost then 0 < s.renewals <= Reached(beats)
    else s.renewals == Reached(beats)
  }

  function Renewals(row: Row, o: Outside, s: Stretch): seq<Statement>
    decreases s.renewals
  {
    if s.renewals == 0 then []
    else Renewals(row, o, Stretch(s.renewals - 1, false))
         + [Statement(Heartbeat(row.id, o.token), Rows(if s.lost then 0 else 1))]
  }

  /** The stretch as it stands before its i-th beat. */
  predicate RanTo(beats: seq<bool>, i: nat, error: Option<BeatError>, s: Stretch)
    requires i <= |beats|
  {
    if error.None?
    then s == Stretch(i, false) && Broken(beats) == Broken(beats[i..]) && Reached(beats) == i + Reached(beats[i..])
    else Ran(None, beats, s) && error == After(None, beats, s)
  }

  lemma RunsOn(row: Row, o: Outside, beats: seq<bool>, i: nat, error: Option<BeatError>, acts: seq<Statement>) returns (s: Stretch)
    requires i < |beats| && RanTo(beats, i, None, Stretch(i, false))
    requires if beats[i] then error == Some(RenewFailed) else error.None? || error == Some(BeatFoundLeaseLost)
    ensures RanTo(beats, i + 1, error, s)
    ensures acts + Renewals(row, o, s) == acts + Renewals(row, o, Stretch(i, false))
              + if beats[i] then [] else [Statement(Heartbeat(row.id, o.token), Rows(if error.None? then 1 else 0))]
  {
    assert beats[i..][1..] == beats[i + 1..];
    s := if beats[i] then Stretch(i, false) else Stretch(i + 1, error.Some?);
  }

  // ---- What a turn comes to ------------------------------------------------------------------

  /** The analysis: the renewals before its read and before its upsert, and the invitation it read. */
  datatype Preparation = Preparation(first: Stretch, second: Stretch, seen: Option<Invite>)

  /** What a turn finds in the tables; answer is what the statement that settles it was told. */
  datatype Turn = Turn(prepared: Preparation, chat: Stretch, late: Stretch, answer: Answer)

  function AfterAnalysis(o: Outside, p: Preparation): Option<BeatError> {
    var read := After(None, o.analysisBeats, p.first);
    if o.analysis.None? then read else After(read, o.upsertBeats, p.second)
  }

  predicate AnalysisRan(o: Outside, p: Preparation) {
    && Ran(None, o.analysisBeats, p.first)
    && (o.analysis.Some? ==> Ran(After(None, o.analysisBeats, p.first), o.upsertBeats, p.second))
  }

  /** The offer rests on the invitation that was read before the profile was written; without the profile there is none. */
  predicate Offers(o: Outside, p: Preparation) {
    o.analysis.Some? && !o.upsertFails && AllowOffer(o.analysis.value, p.seen)
  }

  /** The upsert of the profile, unless it does not reach the store. */
  function Upserting(row: Row, o: Outside, seen: Option<Invite>): Option<Action>
    requires o.analysis.Some?
  {
    if o.upsertFails then None else Some(WriteIntent(row.session, row.message, o.analysis.value, seen))
  }

  function WriteScript(row: Row, o: Outside, s: Stretch, seen: Option<Invite>): seq<Statement>
    requires o.analysis.Some?
  {
    Renewals(row, o, s) + Stated(Upserting(row, o, seen), Written)
  }

  function UpsertScript(row: Row, o: Outside, s: Stretch, seen: Option<Invite>): seq<Statement>
    requires o.analysis.Some?
  {
    [Statement(ReadIntent(row.session), Shown(seen))] + WriteScript(row, o, s, seen)
  }

  function AnalysisScript(row: Row, o: Outside, p: Preparation): seq<Statement> {
    if o.analysis.None? then Renewals(row, o, p.first)
    else Renewals(row, o, p.first) + UpsertScript(row, o, p.second, p.seen)
  }

  function RunAfter(row: Row, o: Outside): int {
    o.settledAt + RetryDelay(row.attempts + 1) + o.jitter
  }

  /** The statement that gives a failed task back or up, unless it does not reach the store. */
  function Giving(row: Row, failure: Failure, o: Outside): Option<Action> {
    if o.updateFails then None
    else if Retryable(failure) then Some(GiveBack(row.id, o.token, RunAfter(row, o)))
    else Some(GiveUp(row.id, o.token))
  }

  function Committing(row: Row, o: Outside, offer: bool): Option<Action> {
    if o.commitFails then None else Some(Commit(row.id, o.token, o.reply.(offer := offer)))
  }

  function Stated(a: Option<Action>, answer: Answer): seq<Statement> {
    if a.None? then [] else [Statement(a.value, answer)]
  }

  function Finished(row: Row, failure: Failure, o: Outside, answer: Answer): Outcome {
    if o.updateFails then UpdateFailed(failure)
    else if answer != Rows(1) then LostLease(failure)
    else if Retryable(failure) then GivenBack(failure, row.attempts + 1 >= row.maxAttempts)
    else GivenUp(failure)
  }

  /** The verdict on a turn that came to a reply. */
  function Judged(beat: Option<BeatError>, o: Outside, answer: Answer): Outcome {
    if beat.Some? then HeartbeatFailed(beat.value)
    else if o.commitFails then NotCommitted(None)
    else if answer.Rejected? then NotCommitted(Some(answer.error))
    else Done
  }

  /** What follows the chat: transaction and last renewals, or the failure, unless the renewals failed first. */
  function EndingScript(row: Row, o: Outside, offer: bool, beat: Option<BeatError>, late: Stretch, answer: Answer): seq<Statement> {
    if o.chat.None? then Stated(Committing(row, o, offer), answer) + Renewals(row, o, late)
    else if beat.Some? then []
    else Stated(Giving(row, o.chat.value, o), answer)
  }

  function Concluded(row: Row, o: Outside, beat: Option<BeatError>, late: Stretch, answer: Answer): Outcome {
    if o.chat.None? then Judged(After(beat, o.lateBeats, late), o, answer)
    else if beat.Some? then HeartbeatFailed(beat.value)
    else Finished(row, o.chat.value, o, answer)
  }

  /** The failure of a turn that never comes to renew: the limiter is asked first, the reads follow. */
  function EarlyFailure(o: Outside): Option<Failure> {
    if o.limiter.Some? then o.limiter else o.reading
  }

  function AfterChat(o: Outside, t: Turn): Option<BeatError> {
    After(AfterAnalysis(o, t.prepared), o.chatBeats, t.chat)
  }

  predicate TurnRan(o: Outside, t: Turn) {
    EarlyFailure(o).None? ==>
      && AnalysisRan(o, t.prepared)
      && Ran(AfterAnalysis(o, t.prepared), o.chatBeats, t.chat)
      && (o.chat.None? ==> Ran(AfterChat(o, t), o.lateBeats, t.late))
  }

  /** Everything a worker does to the tables between its lease and the end of the turn. */
  function TurnScript(row: Row, o: Outside, t: Turn): seq<Statement> {
    if EarlyFailure(o).Some? then Stated(Giving(row, EarlyFailure(o).value, o), t.answer)
    else AnalysisScript(row, o, t.prepared) + Renewals(row, o, t.chat)
         + EndingScript(row, o, Offers(o, t.prepared), AfterChat(o, t), t.late, t.answer)
  }

  /** The outcome of a claimed task, by the answers of the outside and of the tables. */
  function TurnOutcome(row: Row, o: Outside, t: Turn): (r: Outcome)
    ensures !r.CircuitOpen?
  {
    if EarlyFailure(o).Some? then Finished(row, EarlyFailure(o).value, o, t.answer)
    else Concluded(row, o, AfterChat(o, t), t.late, t.answer)
  }

  predicate Fails(beats: seq<bool>, s: Stretch) {
    Broken(beats) || s.lost
  }

  /** Some renewal of the turn did not reach the store, or found the lease lost. */
  predicate SomeRenewalFails(o: Outside, t: Turn) {
    || Fails(o.analysisBeats, t.prepared.first) || (o.analysis.Some? && Fails(o.upsertBeats, t.prepared.second))
    || Fails(o.chatBeats, t.chat) || (o.chat.None? && Fails(o.lateBeats, t.late))
  }

  predicate Commits(o: Outside, answer: Answer) {
    o.chat.None? && !o.commitFails && answer == Written
  }

  predicate CommittedBy(o: Outside, t: Turn) {
    EarlyFailure(o).None? && Commits(o, t.answer)
  }

  // ---- What a dispatch comes to --------------------------------------------------------------

  predicate Admitted(shared: bool, o: Outside, log: seq<Probe.Event>) {
    if shared then o.shared == Allowed
    else Probe.Until(log).None? || (Probe.Until(log).value <= o.startedAt && Probe.Holder(log).None?)
  }

  function AdmissionOf(shared: bool, o: Outside, log: seq<Probe.Event>): seq<Probe.Event> {
    if shared || !Admitted(shared, o, log) then []
    else if Probe.Until(log).None? then [Probe.Admitted(o.startedAt)]
    else [Probe.Probed(o.startedAt)]
  }

  /** Where in the log the probe is that a dispatch is admitted with. */
  function TicketOf(shared: bool, o: Outside, log: seq<Probe.Event>): Option<nat> {
    if !shared && Admitted(shared, o, log) && Probe.Until(log).Some? then Some(|log|) else None
  }

  function Leasing(row: Row, o: Outside): Option<Action> {
    if o.leaseFails then None else Some(TakeLease(row.id, o.token))
  }

  predicate Claims(o: Outside, leased: Answer) {
    !o.leaseFails && leased == Rows(1)
  }

  /** Everything an admitted dispatch does to the tables. */
  function DispatchScript(row: Row, o: Outside, leased: Answer, t: Turn): seq<Statement> {
    Stated(Leasing(row, o), leased) + if Claims(o, leased) then TurnScript(row, o, t) else []
  }

  function DispatchOutcome(row: Row, o: Outside, leased: Answer, t: Turn): (r: Outcome)
    ensures !r.CircuitOpen?
  {
    if Claims(o, leased) then TurnOutcome(row, o, t) else NotClaimed
  }

  lemma {:induction false} RenewalsAreHeartbeats(row: Row, o: Outside, s: Stretch)
    ensures forall st <- Renewals(row, o, s) :: st.action == Heartbeat(row.id, o.token)
    decreases s.renewals
  {
    if s.renewals > 0 {
      RenewalsAreHeartbeats(row, o, Stretch(s.renewals - 1, false));
    }
  }

  /** The form goes out with a high level only, to a visitor who was not yet invited when the written profile was read. */
  predicate GoesOut(o: Outside, t: Turn) {
    o.analysis == Some(High) && !o.upsertFails && (t.prepared.seen.None? || t.prepared.seen == Some(NotInvited))
  }

  predicate Takes(acts: seq<Statement>, a: Action) {
    exists st <- acts :: st.action == a
  }

  lemma TakesInParts(a: seq<Statement>, b: seq<Statement>, action: Action)
    ensures Takes(a + b, action) <==> Takes(a, action) || Takes(b, action)
  {
    if st :| st in a && st.action == action {
      assert st in a + b;
    }
    if st :| st in b && st.action == action {
      assert st in a + b;
    }
  }

  lemma AnalysisDoesNotCommit(row: Row, o: Outside, p: Preparation, a: Action)
    requires a.Commit?
    ensures !Takes(AnalysisScript(row, o, p), a)
  {
    RenewalsAreHeartbeats(row, o, p.first);
    RenewalsAreHeartbeats(row, o, p.second);
  }

  lemma EndingCommits(row: Row, o: Outside, offer: bool, beat: Option<BeatError>, late: Stretch, answer: Answer, a: Action)
    requires a.Commit?
    ensures Takes(EndingScript(row, o, offer, beat, late, answer), a)
            <==> o.chat.None? && !o.commitFails && a == Commit(row.id, o.token, o.reply.(offer := offer))
  {
    RenewalsAreHeartbeats(row, o, late);
    if o.chat.None? {
      TakesInParts(Stated(Committing(row, o, offer), answer), Renewals(row, o, late), a);
      assert !o.commitFails ==> Statement(Commit(row.id, o.token, o.reply.(offer := offer)), answer) in Stated(Committing(row, o, offer), answer);
    }
  }

  /** What a dispatch commits, and when it tries to: the reply of a claimed turn without failure, with the form exactly if it goes out. */
  lemma CommitsExactlyWhen(row: Row, o: Outside, leased: Answer, t: Turn, a: Action)
    requires a.Commit?
    ensures Takes(DispatchScript(row, o, leased, t), a) <==>
              && Claims(o, leased) && o.limiter.None? && o.reading.None? && o.chat.None? && !o.commitFails
              && a == Commit(row.id, o.token, Reply(o.reply.id, o.reply.sources, o.reply.refusal, GoesOut(o, t)))
  {
    TakesInParts(Stated(Leasing(row, o), leased), if Claims(o, leased) then TurnScript(row, o, t) else [], a);
    if EarlyFailure(o).None? {
      var ending := EndingScript(row, o, Offers(o, t.prepared), AfterChat(o, t), t.late, t.answer);
      TakesInParts(AnalysisScript(row, o, t.prepared) + Renewals(row, o, t.chat), ending, a);
      TakesInParts(AnalysisScript(row, o, t.prepared), Renewals(row, o, t.chat), a);
      AnalysisDoesNotCommit(row, o, t.prepared, a);
      RenewalsAreHeartbeats(row, o, t.chat);
      EndingCommits(row, o, Offers(o, t.prepared), AfterChat(o, t), t.late, t.answer, a);
    }
  }

  lemma AnalysisWrites(row: Row, o: Outside, p: Preparation, a: Action)
    requires a.WriteIntent?
    ensures Takes(AnalysisScript(row, o, p), a)
            <==> o.analysis.Some? && !o.upsertFails && a == WriteIntent(row.session, row.message, o.analysis.value, p.seen)
  {
    RenewalsAreHeartbeats(row, o, p.first);
    if o.analysis.Some? {
      RenewalsAreHeartbeats(row, o, p.second);
      TakesInParts(Renewals(row, o, p.first), UpsertScript(row, o, p.second, p.seen), a);
      TakesInParts([Statement(ReadIntent(row.session), Shown(p.seen))], WriteScript(row, o, p.second, p.seen), a);
      TakesInParts(Renewals(row, o, p.second), Stated(Upserting(row, o, p.seen), Written), a);
    }
  }

  /** What an analysis writes, and when: its level for this message of the session, over the invitation it read there. */
  lemma ProfileIsWrittenExactlyWhen(row: Row, o: Outside, leased: Answer, t: Turn, a: Action)
    requires a.WriteIntent?
    ensures Takes(DispatchScript(row, o, leased, t), a) <==>
              && Claims(o, leased) && o.limiter.None? && o.reading.None? && o.analysis.Some? && !o.upsertFails
              && a == WriteIntent(row.session, row.message, o.analysis.value, t.prepared.seen)
  {
    TakesInParts(Stated(Leasing(row, o), leased), if Claims(o, leased) then TurnScript(row, o, t) else [], a);
    if EarlyFailure(o).None? {
      var ending := EndingScript(row, o, Offers(o, t.prepared), AfterChat(o, t), t.late, t.answer);
      TakesInParts(AnalysisScript(row, o, t.prepared) + Renewals(row, o, t.chat), ending, a);
      TakesInParts(AnalysisScript(row, o, t.prepared), Renewals(row, o, t.chat), a);
      AnalysisWrites(row, o, t.prepared, a);
      RenewalsAreHeartbeats(row, o, t.chat);
      RenewalsAreHeartbeats(row, o, t.late);
    }
  }

  /** A dispatch ends with a renewal error exactly when its turn came to renew and some renewal failed, whatever else went well. */
  lemma EndsWithRenewalErrorExactlyWhen(row: Row, o: Outside, leased: Answer, t: Turn)
    ensures DispatchOutcome(row, o, leased, t).HeartbeatFailed?
            <==> Claims(o, leased) && EarlyFailure(o).None? && SomeRenewalFails(o, t)
  {
  }

  /** What is left in the tables: a committed reply, and no lease unless the update, the commit or a renewal failed. */
  ghost predicate Leaves(s: State, row: Row, o: Outside, outcome: Outcome, committed: bool) {
    (committed ==> TaskAnswered(s.db, row, o.reply.id)) && (LetsGo(outcome) ==> HoldsNothing(s.db, o.token))
  }

  // ---- What the in-process circuit keeps -----------------------------------------------------

  /** Any retryable failure but a limited concurrency is an overload, once the task was given back. */
  predicate TellsOverload(outcome: Outcome) {
    outcome.GivenBack? && outcome.failure != ConcurrencyLimited
  }

  /** What a dispatch adds to the in-process circuit after its admission. */
  function EventsOf(outcome: Outcome, at: int): seq<Probe.Event> {
    match outcome
    case CircuitOpen | HeartbeatFailed(_) => []
    case NotClaimed => [Probe.Released]
    case Done => [Probe.Succeeded]
    case GivenBack(failure, _) =>
      if failure == ConcurrencyLimited then [Probe.Reopened(at)] else [Probe.Reopened(at), Probe.Overloaded(at)]
    case _ => [Probe.Reopened(at)]
  }

  /** The events reach the in-process circuit alone. */
  function Grown(shared: bool, log: seq<Probe.Event>, events: seq<Probe.Event>): seq<Probe.Event> {
    if shared then log else log + events
  }

  /** No probe that was out when the log read log is out now. */
  ghost predicate AllTakenBack(log: seq<Probe.Event>, now: seq<Probe.Event>) {
    Probe.Holder(now).Some? ==> Probe.Holder(now).value >= |log|
  }

  lemma TakenBackStays(log: seq<Probe.Event>, now: seq<Probe.Event>, later: seq<Probe.Event>)
    requires |log| <= |now| && now <= later && AllTakenBack(log, now)
    ensures AllTakenBack(log, later)
  {
    assert later == now + later[|now|..];
    if Probe.Holder(later).Some? && Probe.Holder(later).value < |log| {
      Probe.TakenBackForGood(now, later[|now|..], Probe.Holder(later).value);
    }
  }

  /** What the two halves of a failed turn's exit tell the circuits adds up. */
  lemma FailureIsTold(shared: bool, row: Row, failure: Failure, o: Outside, answer: Answer,
                      log: seq<Probe.Event>, reopened: seq<Probe.Event>, now: seq<Probe.Event>,
                      told: seq<Report>, before: seq<Report>, after: seq<Report>)
    requires |log| <= |reopened|
    requires now == if !shared && TellsOverload(Finished(row, failure, o, answer)) then reopened + [Probe.Overloaded(o.settledAt)]
                    else reopened
    requires before == if shared && !Retryable(failure) then told + [ReportReopen] else told
    requires after == if shared && TellsOverload(Finished(row, failure, o, answer)) then before + [ReportOverload] else before
    ensures var outcome, at := Finished(row, failure, o, answer), o.settledAt;
            && (reopened == Grown(shared, log, [Probe.Reopened(at)]) ==> now == Grown(shared, log, EventsOf(outcome, at)))
            && (AllTakenBack(log, reopened) ==> AllTakenBack(log, now))
            && after == if shared then told + ReportsOf(outcome) else told
  {
    if AllTakenBack(log, reopened) {
      TakenBackStays(log, reopened, now);
    }
  }

  /** The probe of an admitted dispatch: with nobody else at the circuit it stays out exactly after a renewal error. */
  lemma TicketIsAtTheEnd(log: seq<Probe.Event>, entered: seq<Probe.Event>, now: seq<Probe.Event>, outcome: Outcome, o: Outside)
    requires !outcome.CircuitOpen? && entered == log + [Probe.Probed(o.startedAt)] && entered <= now
    requires !outcome.HeartbeatFailed? ==> AllTakenBack(entered, now)
    ensures !outcome.HeartbeatFailed? ==> Probe.Holder(now) != Some(|log|)
    ensures now == entered + EventsOf(outcome, o.settledAt) ==> (Probe.Holder(now) == Some(|log|) <==> outcome.HeartbeatFailed?)
  {
  }

  lemma InOneGo(acts: seq<Statement>, a: seq<Statement>, b: seq<Statement>)
    ensures acts + a + b == acts + (a + b)
  {
  }

  // ---- What a worker keeps ---------------------------------------------------------------------

  /** The scanned row still names its task's message. */
  ghost predicate IsRow(s: State, row: Row) {
    row.id in s.db.tasks && s.db.tasks[row.id].message == row.message
  }

  /** What lasts for a worker: its token on its task or on none, its row, and its reply once it is there. */
  ghost predicate Since(s: State, s': State, row: Row, o: Outside) {
    && OnlyOn(s', row.id, o.token)
    && (HoldsNothing(s.db, o.token) ==> HoldsNothing(s'.db, o.token))
    && (IsRow(s, row) ==> IsRow(s', row))
    && (TaskAnswered(s.db, row, o.reply.id) ==> TaskAnswered(s'.db, row, o.reply.id))
  }

  lemma LaterIsSince(s: State, s': State, row: Row, o: Outside)
    requires Later(s, s', row.id, o.token)
    ensures Since(s, s', row, o)
  {
  }

  /**
    A task given back waits the delay of the attempt that failed, or has failed for good. The row
    was scanned before the lease: what the worker takes for the last attempt is the last one
    exactly when row and task agree about that, as they do when the row was current at the lease.
  */
  ghost predicate GivenBackRight(now: State, settled: State, row: Row, o: Outside, final: bool) {
    && row.id in now.db.tasks && row.id in settled.db.tasks
    && var t, held := now.db.tasks[row.id], settled.db.tasks[row.id];
       && (if held.attempts >= held.maxAttempts then t.status == Failed
           else t.status == RetryWait && t.runAfter == RunAfter(row, o))
       && (row.attempts + 1 == held.attempts && row.maxAttempts == held.maxAttempts ==> (final <==> t.status == Failed))
       && ((final <==> t.status == Failed)
           <==> (row.attempts + 1 >= row.maxAttempts <==> held.attempts >= held.maxAttempts))
  }

  // ---- What becomes of a failed turn -----------------------------------------------------------

  /** The failure that ends a turn: the limiter comes first, then the reads, then the chat, unless a renewal failed. */
  predicate FailsWith(o: Outside, t: Turn, failure: Failure) {
    || o.limiter == Some(failure)
    || (o.limiter.None? && o.reading == Some(failure))
    || (o.limiter.None? && o.reading.None? && o.chat == Some(failure) && !SomeRenewalFails(o, t))
  }

  /** The task waits out the delay of the attempt that failed, or has failed for good after its last one. */
  ghost predicate WaitsAgain(db: Tables, row: Row, o: Outside) {
    && row.id in db.tasks
    && var t := db.tasks[row.id];
       if t.attempts >= t.maxAttempts then t.status == Failed
       else t.status == RetryWait && (row.attempts + 1 == t.attempts ==> t.runAfter == o.settledAt + o.jitter + RetryDelay(t.attempts))
  }

  ghost predicate FailedForGood(db: Tables, row: Row) {
    row.id in db.tasks && db.tasks[row.id].status == Failed
  }

  /** What is in the task's row, by what the failure was. */
  ghost predicate Settled(db: Tables, row: Row, failure: Failure, o: Outside) {
    match failure
    case ConcurrencyLimited => WaitsAgain(db, row, o)
    case RuntimeUnavailable => WaitsAgain(db, row, o)
    case DeadlineExceeded => WaitsAgain(db, row, o)
    case NetworkTimeout => WaitsAgain(db, row, o)
    case UpstreamStatus(code) => if code in {429, 503, 529} then WaitsAgain(db, row, o) else FailedForGood(db, row)
    case OtherFailure => FailedForGood(db, row)
  }

  /** What the shared circuit hears of it. */
  function Tells(failure: Failure): seq<Report> {
    match failure
    case ConcurrencyLimited => []
    case RuntimeUnavailable => [ReportOverload]
    case DeadlineExceeded => [ReportOverload]
    case NetworkTimeout => [ReportOverload]
    case UpstreamStatus(code) => if code in {429, 503, 529} then [ReportOverload] else [ReportReopen]
    case OtherFailure => [ReportReopen]
  }

  /** The in-process circuit takes the probe back first, and counts the same overloads. */
  function TellsEvents(failure: Failure, at: int): seq<Probe.Event> {
    [Probe.Reopened(at)] + if Tells(failure) == [ReportOverload] then [Probe.Overloaded(at)] else []
  }

  lemma GivenBackWaits(s: State, row: Row, o: Outside)
    requires Held(s.db, row.id, o.token)
    ensures WaitsAgain(Step(s, GiveBack(row.id, o.token, RunAfter(row, o))).db, row, o)
  {
  }

  lemma FailureIsHeard(row: Row, failure: Failure, o: Outside, answer: Answer)
    requires !o.updateFails && answer == Rows(1)
    ensures var outcome := Finished(row, failure, o, answer);
            ReportsOf(outcome) == Tells(failure) && EventsOf(outcome, o.settledAt) == TellsEvents(failure, o.settledAt)
  {
  }

  /** What the circuits hear of a dispatch, by what the outside and its statements answered. */
  lemma DispatchIsHeard(row: Row, o: Outside, leased: Answer, t: Turn)
    ensures var outcome, at := DispatchOutcome(row, o, leased, t), o.settledAt;
            var heard, events := ReportsOf(outcome), EventsOf(outcome, at);
            && (!Claims(o, leased) ==> heard == [ReportReopen] && events == [Probe.Released])
            && (Claims(o, leased) && !o.updateFails && t.answer == Rows(1) ==>
                  forall failure | FailsWith(o, t, failure) :: heard == Tells(failure) && events == TellsEvents(failure, at))
            && (Claims(o, leased) && o.limiter.None? && o.reading.None? && SomeRenewalFails(o, t) ==> heard == [] && events == [])
            && (Claims(o, leased) && o.limiter.None? && o.reading.None? && o.chat.None? && !SomeRenewalFails(o, t) ==>
                  if !o.commitFails && !t.answer.Rejected? then heard == [ReportSuccess] && events == [Probe.Succeeded]
                  else heard == [ReportReopen] && events == [Probe.Reopened(at)])
  {
    if Claims(o, leased) && !o.updateFails && t.answer == Rows(1) {
      forall failure | FailsWith(o, t, failure)
        ensures ReportsOf(DispatchOutcome(row, o, leased, t)) == Tells(failure)
        ensures EventsOf(DispatchOutcome(row, o, leased, t), o.settledAt) == TellsEvents(failure, o.settledAt)
      {
        FailureIsHeard(row, failure, o, t.answer);
      }
    }
  }

  lemma GivenBackIsRight(s: State, row: Row, o: Outside)
    requires Held(s.db, row.id, o.token)
    ensures GivenBackRight(Step(s, GiveBack(row.id, o.token, RunAfter(row, o))), s, row, o, row.attempts + 1 >= row.maxAttempts)
  {
  }

  class Dispatcher {
    const store: Store
    const circuit: Probe.Circuit
    /** Whether a shared circuit replaces the in-process one. */
    const shared: bool
    var reports: seq<Report>
    /** What the other dispatches of this process do to the in-process circuit, in turn. */
    var circuitSchedule: seq<seq<CircuitCall>>

    ghost predicate Valid()
      reads this, store, circuit
    {
      store.Valid() && circuit.Valid()
    }

    constructor (store: Store, circuit: Probe.Circuit, shared: bool, circuitSchedule: seq<seq<CircuitCall>>)
      requires store.Valid() && circuit.Valid()
      ensures Valid() && this.store == store && this.circuit == circuit && this.shared == shared && reports == []
      ensures this.circuitSchedule == circuitSchedule
    {
      this.store, this.circuit, this.shared := store, circuit, shared;
      this.reports, this.circuitSchedule := [], circuitSchedule;
    }

    /** The run and the log only grow, and nobody turns up at the circuit who was not to come. */
    twostate predicate Went()
      reads this, store, circuit
    {
      && Valid() && store.Went() && old(circuit.log) <= circuit.log
      && (old(circuitSchedule) == [] ==> circuitSchedule == [])
    }

    /** Whatever happened at the circuit was done by others. */
    twostate predicate Quiet()
      reads this, store, circuit
    {
      Went() && (old(circuitSchedule) == [] ==> circuit.log == old(circuit.log))
    }

    /**
      What the circuit in use was told, and what it left: of the probes that were out before none
      is, unless a renewal failed. Alone at the in-process circuit, its log grew by just these events.
    */
    twostate predicate Heard(outcome: Outcome, at: int)
      reads this, store, circuit
    {
      && Went()
      && reports == (if shared then old(reports) + ReportsOf(outcome) else old(reports))
      && (!shared && !outcome.HeartbeatFailed? ==> AllTakenBack(old(circuit.log), circuit.log))
      && (old(circuitSchedule) == [] ==> circuit.log == Grown(shared, old(circuit.log), EventsOf(outcome, at)))
    }

    // ---- Everyone else -----------------------------------------------------------------------

    /** Everyone else acts: on the tables, and on this process's circuit. */
    method Others(row: Row, ghost o: Outside)
      requires Valid() && OnlyOn(store.state, row.id, o.token)
      modifies store`state, store`trace, store`states, store`schedule, circuit, this`circuitSchedule
      ensures Quiet() && store.acts == old(store.acts) && Since(old(store.state), store.state, row, o)
    {
      store.OthersAround(row.id, o.token);
      LaterIsSince(old(store.state), store.state, row, o);
      OthersOnCircuit();
    }

    method OthersOnCircuit()
      requires circuit.Valid()
      modifies circuit, this`circuitSchedule
      ensures circuit.Valid() && old(circuit.log) <= circuit.log
      ensures old(circuitSchedule) == [] ==> circuitSchedule == [] && circuit.log == old(circuit.log)
    {
      if circuitSchedule != [] {
        var calls := circuitSchedule[0];
        circuitSchedule := circuitSchedule[1..];
        for i := 0 to |calls|
          invariant circuit.Valid() && old(circuit.log) <= circuit.log
        {
          match calls[i] {
            case AllowCall(at) => var _ := circuit.Allow(at);
            case OverloadCall(at) => circuit.RecordOverload(at);
            case SuccessCall => circuit.RecordSuccess();
            case ReopenCall(at) => circuit.ReopenHalfOpenProbe(at);
            case ReleaseCall => circuit.ReleaseHalfOpenProbe();
          }
        }
      }
    }

    method Tell(report: Report)
      modifies this`reports
      ensures reports == old(reports) + [report]
    {
      reports := reports + [report];
    }

    // ---- Renewals and the analysis -----------------------------------------------------------

    method BeatOnce(row: Row, o: Outside, broken: bool) returns (error: Option<BeatError>)
      requires Valid() && OnlyOn(store.state, row.id, o.token)
      modifies store, circuit, this`circuitSchedule
      ensures Quiet() && Since(old(store.state), store.state, row, o)
      ensures broken ==> error == Some(RenewFailed) && store.acts == old(store.acts)
      ensures !broken ==> error.None? || error == Some(BeatFoundLeaseLost)
      ensures !broken ==> store.acts == old(store.acts) + [Statement(Heartbeat(row.id, o.token), Rows(if error.None? then 1 else 0))]
      ensures error == Some(BeatFoundLeaseLost) ==> HoldsNothing(store.state.db, o.token)
    {
      error := None;
      if broken {
        error := Some(RenewFailed);
      } else {
        var rows := store.TryRenew(row.id, o.token);
        LaterIsSince(old(store.state), store.state, row, o);
        if rows != 1 {
          error := Some(BeatFoundLeaseLost);
        }
      }
      Others(row, o);
    }

    method BeatUntilFailure(row: Row, o: Outside, beats: seq<bool>) returns (error: Option<BeatError>, ghost s: Stretch)
      requires Valid() && OnlyOn(store.state, row.id, o.token)
      modifies store, circuit, this`circuitSchedule
      ensures Quiet() && Since(old(store.state), store.state, row, o)
      ensures Ran(None, beats, s) && error == After(None, beats, s) && store.acts == old(store.acts) + Renewals(row, o, s)
      ensures error == Some(BeatFoundLeaseLost) ==> HoldsNothing(store.state.db, o.token)
    {
      error, s := None, Stretch(0, false);
      var i := 0;
      while i < |beats| && error.None?
        invariant i <= |beats| && Quiet() && Since(old(store.state), store.state, row, o)
        invariant RanTo(beats, i, error, s) && store.acts == old(store.acts) + Renewals(row, o, s)
        invariant error == Some(BeatFoundLeaseLost) ==> HoldsNothing(store.state.db, o.token)
        decreases |beats| - i
      {
        error := BeatOnce(row, o, beats[i]);
        s := RunsOn(row, o, beats, i, error, old(store.acts));
        i := i + 1;
      }
    }

    /** The renewals of one stretch of the turn; the first failure ends them for good. */
    method Beat(row: Row, o: Outside, beats: seq<bool>, before: Option<BeatError>)
      returns (error: Option<BeatError>, ghost s: Stretch)
      requires Valid() && OnlyOn(store.state, row.id, o.token)
      requires before == Some(BeatFoundLeaseLost) ==> HoldsNothing(store.state.db, o.token)
      modifies store, circuit, this`circuitSchedule
      ensures Quiet() && Since(old(store.state), store.state, row, o)
      ensures Ran(before, beats, s) && error == After(before, beats, s) && store.acts == old(store.acts) + Renewals(row, o, s)
      ensures error == Some(BeatFoundLeaseLost) ==> HoldsNothing(store.state.db, o.token)
    {
      Others(row, o);
      error, s := before, Stretch(0, false);
      if before.None? {
        error, s := BeatUntilFailure(row, o, beats);
      }
    }

    /** One own statement that cannot end the lease. */
    method Note(row: Row, o: Outside, a: Action)
      requires Valid() && OnlyOn(store.state, row.id, o.token)
      modifies store`state, store`trace, store`states, store`acts, store`places
      ensures Quiet() && Since(old(store.state), store.state, row, o)
      ensures store.acts == old(store.acts) + [Statement(a, AnswerTo(old(store.state), a))]
    {
      store.ActHolding(a, row.id, o.token);
      LaterIsSince(old(store.state), store.state, row, o);
    }

    /** The analysis that precedes the main reply: read, then upsert, with others and renewals before each. */
    method Analyze(row: Row, o: Outside) returns (allowOffer: bool, beat: Option<BeatError>, ghost p: Preparation)
      requires Valid() && OnlyOn(store.state, row.id, o.token)
      modifies store, circuit, this`circuitSchedule
      ensures Quiet() && Since(old(store.state), store.state, row, o)
      ensures AnalysisRan(o, p) && beat == AfterAnalysis(o, p) && allowOffer == Offers(o, p)
      ensures allowOffer <==> !o.upsertFails && o.analysis == Some(High) && (p.seen.None? || p.seen == Some(NotInvited))
      ensures store.acts == old(store.acts) + AnalysisScript(row, o, p)
      ensures beat == Some(BeatFoundLeaseLost) ==> HoldsNothing(store.state.db, o.token)
    {
      ghost var first, second;
      beat, first := Beat(row, o, o.analysisBeats, None);
      allowOffer, p := false, Preparation(first, Stretch(0, false), None);
      if o.analysis.Some? {
        ghost var seen := InviteOf(store.state.db, row.session);
        allowOffer, beat, second := Upsert(row, o, beat);
        p := Preparation(first, second, seen);
        InOneGo(old(store.acts), Renewals(row, o, first), UpsertScript(row, o, second, seen));
      }
    }

    method Upsert(row: Row, o: Outside, before: Option<BeatError>) returns (allowOffer: bool, beat: Option<BeatError>, ghost s: Stretch)
      requires Valid() && OnlyOn(store.state, row.id, o.token) && o.analysis.Some?
      requires before == Some(BeatFoundLeaseLost) ==> HoldsNothing(store.state.db, o.token)
      modifies store, circuit, this`circuitSchedule
      ensures Quiet() && Since(old(store.state), store.state, row, o)
      ensures Ran(before, o.upsertBeats, s) && beat == After(before, o.upsertBeats, s)
      ensures store.acts == old(store.acts) + UpsertScript(row, o, s, InviteOf(old(store.state.db), row.session))
      ensures allowOffer == (!o.upsertFails && AllowOffer(o.analysis.value, InviteOf(old(store.state.db), row.session)))
      ensures beat == Some(BeatFoundLeaseLost) ==> HoldsNothing(store.state.db, o.token)
    {
      var seen := InviteOf(store.state.db, row.session);
      Note(row, o, ReadIntent(row.session));
      beat, s := RenewAndWrite(row, o, before, seen);
      InOneGo(old(store.acts), [Statement(ReadIntent(row.session), Shown(seen))], WriteScript(row, o, s, seen));
      allowOffer := !o.upsertFails && AllowOffer(o.analysis.value, seen);
    }

    method RenewAndWrite(row: Row, o: Outside, before: Option<BeatError>, seen: Option<Invite>)
      returns (beat: Option<BeatError>, ghost s: Stretch)
      requires Valid() && OnlyOn(store.state, row.id, o.token) && o.analysis.Some?
      requires before == Some(BeatFoundLeaseLost) ==> HoldsNothing(store.state.db, o.token)
      modifies store, circuit, this`circuitSchedule
      ensures Quiet() && Since(old(store.state), store.state, row, o)
      ensures Ran(before, o.upsertBeats, s) && beat == After(before, o.upsertBeats, s)
      ensures store.acts == old(store.acts) + WriteScript(row, o, s, seen)
      ensures beat == Some(BeatFoundLeaseLost) ==> HoldsNothing(store.state.db, o.token)
    {
      beat, s := Beat(row, o, o.upsertBeats, before);
      if !o.upsertFails {
        Note(row, o, WriteIntent(row.session, row.message, o.analysis.value, seen));
      }
      InOneGo(old(store.acts), Renewals(row, o, s), Stated(Upserting(row, o, seen), Written));
    }

    method AnalyzeAndChat(row: Row, o: Outside)
      returns (allowOffer: bool, beat: Option<BeatError>, ghost p: Preparation, ghost chat: Stretch)
      requires Valid() && OnlyOn(store.state, row.id, o.token)
      modifies store, circuit, this`circuitSchedule
      ensures Quiet() && Since(old(store.state), store.state, row, o)
      ensures AnalysisRan(o, p) && allowOffer == Offers(o, p)
      ensures Ran(AfterAnalysis(o, p), o.chatBeats, chat) && beat == After(AfterAnalysis(o, p), o.chatBeats, chat)
      ensures store.acts == old(store.acts) + (AnalysisScript(row, o, p) + Renewals(row, o, chat))
      ensures beat == Some(BeatFoundLeaseLost) ==> HoldsNothing(store.state.db, o.token)
    {
      allowOffer, beat, p := Analyze(row, o);
      beat, chat := Beat(row, o, o.chatBeats, beat);
      InOneGo(old(store.acts), AnalysisScript(row, o, p), Renewals(row, o, chat));
    }

    // ---- A turn that failed ------------------------------------------------------------------

    /** The exit of a failed turn: tell the circuit, and give the task back or up. */
    method FinishError(row: Row, failure: Failure, o: Outside) returns (outcome: Outcome, ghost answer: Answer)
      requires Valid() && OnlyOn(store.state, row.id, o.token)
      modifies store, circuit, this`circuitSchedule, this`reports
      ensures Heard(outcome, o.settledAt) && outcome == Finished(row, failure, o, answer)
      ensures store.acts == old(store.acts) + Stated(Giving(row, failure, o), answer)
      ensures LetsGo(outcome) ==> HoldsNothing(store.state.db, o.token)
      ensures !o.updateFails && answer == Rows(1) ==>
                && Settled(store.state.db, row, failure, o)
                && reports == (if shared then old(reports) + Tells(failure) else old(reports))
                && (!shared && old(circuitSchedule) == [] ==> circuit.log == old(circuit.log) + TellsEvents(failure, o.settledAt))
    {
      outcome, answer := Settle(row, failure, o);
      if !o.updateFails && answer == Rows(1) {
        FailureIsHeard(row, failure, o, answer);
      }
    }

    /** The circuit hears that the turn failed, the task is given back or up, and the circuit hears of an overload. */
    method Settle(row: Row, failure: Failure, o: Outside) returns (outcome: Outcome, ghost answer: Answer)
      requires Valid() && OnlyOn(store.state, row.id, o.token)
      modifies store, circuit, this`circuitSchedule, this`reports
      ensures Heard(outcome, o.settledAt) && outcome == Finished(row, failure, o, answer)
      ensures store.acts == old(store.acts) + Stated(Giving(row, failure, o), answer)
      ensures LetsGo(outcome) ==> HoldsNothing(store.state.db, o.token)
      ensures !o.updateFails && answer == Rows(1) ==> Settled(store.state.db, row, failure, o)
    {
      TakeProbeBack(row, failure, o);
      ghost var log, told := circuit.log, reports;
      outcome, answer := GiveAndTell(row, failure, o);
      FailureIsTold(shared, row, failure, o, answer, old(circuit.log), log, circuit.log, old(reports), told, reports);
    }

    /** The circuit hears of every failed turn first; a probe that was out is taken back. */
    method TakeProbeBack(row: Row, failure: Failure, o: Outside)
      requires Valid() && OnlyOn(store.state, row.id, o.token)
      modifies store`state, store`trace, store`states, store`schedule, circuit, this`circuitSchedule, this`reports
      ensures Went() && store.acts == old(store.acts) && Since(old(store.state), store.state, row, o)
      ensures reports == if shared && !Retryable(failure) then old(reports) + [ReportReopen] else old(reports)
      ensures !shared ==> AllTakenBack(old(circuit.log), circuit.log)
      ensures old(circuitSchedule) == [] ==> circuit.log == Grown(shared, old(circuit.log), [Probe.Reopened(o.settledAt)])
    {
      if shared && !Retryable(failure) {
        Tell(ReportReopen);
      } else if !shared {
        circuit.ReopenHalfOpenProbe(o.settledAt);
      }
      ghost var log := circuit.log;
      Others(row, o);
      if !shared {
        TakenBackStays(old(circuit.log), log, circuit.log);
      }
    }

    method GiveAndTell(row: Row, failure: Failure, o: Outside) returns (outcome: Outcome, ghost answer: Answer)
      requires Valid() && OnlyOn(store.state, row.id, o.token)
      modifies store`state, store`trace, store`states, store`acts, store`places, circuit, this`reports
      ensures Valid() && store.Went() && outcome == Finished(row, failure, o, answer)
      ensures store.acts == old(store.acts) + Stated(Giving(row, failure, o), answer)
      ensures LetsGo(outcome) ==> HoldsNothing(store.state.db, o.token)
      ensures !o.updateFails && answer == Rows(1) ==> Settled(store.state.db, row, failure, o)
      ensures circuit.log == if !shared && TellsOverload(outcome) then old(circuit.log) + [Probe.Overloaded(o.settledAt)] else old(circuit.log)
      ensures reports == if shared && TellsOverload(outcome) then old(reports) + [ReportOverload] else old(reports)
    {
      outcome, answer := Give(row, failure, o);
      TellOverload(outcome, o.settledAt);
    }

    method TellOverload(outcome: Outcome, at: int)
      requires circuit.Valid()
      modifies circuit, this`reports
      ensures circuit.Valid()
      ensures circuit.log == if !shared && TellsOverload(outcome) then old(circuit.log) + [Probe.Overloaded(at)] else old(circuit.log)
      ensures reports == if shared && TellsOverload(outcome) then old(reports) + [ReportOverload] else old(reports)
    {
      if TellsOverload(outcome) {
        if shared {
          Tell(ReportOverload);
        } else {
          circuit.RecordOverload(at);
        }
      }
    }

    /** The statement that gives the task back or up, unless it does not reach the store. */
    method Give(row: Row, failure: Failure, o: Outside) returns (outcome: Outcome, ghost answer: Answer)
      requires Valid() && OnlyOn(store.state, row.id, o.token)
      modifies store`state, store`trace, store`states, store`acts, store`places
      ensures store.Went() && outcome == Finished(row, failure, o, answer)
      ensures store.acts == old(store.acts) + Stated(Giving(row, failure, o), answer)
      ensures LetsGo(outcome) ==> HoldsNothing(store.state.db, o.token)
      ensures !o.updateFails && answer == Rows(1) ==> Settled(store.state.db, row, failure, o)
    {
      answer := Rows(0);
      if o.updateFails {
        outcome := UpdateFailed(failure);
      } else if Retryable(failure) {
        outcome, answer := GiveTaskBack(row, failure, o);
      } else {
        outcome, answer := GiveTaskUp(row, failure, o);
      }
    }

    method GiveTaskUp(row: Row, failure: Failure, o: Outside) returns (outcome: Outcome, ghost answer: Answer)
      requires Valid() && OnlyOn(store.state, row.id, o.token)
      modifies store`state, store`trace, store`states, store`acts, store`places
      ensures store.Went() && HoldsNothing(store.state.db, o.token)
      ensures store.acts == old(store.acts) + [Statement(GiveUp(row.id, o.token), answer)]
      ensures answer == Rows(if Held(old(store.state.db), row.id, o.token) then 1 else 0)
      ensures outcome == if answer == Rows(1) then GivenUp(failure) else LostLease(failure)
      ensures outcome.GivenUp? ==> row.id in store.state.db.tasks && store.state.db.tasks[row.id].status == Failed
    {
      var rows := store.TryGiveUp(row.id, o.token);
      answer := Rows(rows);
      outcome := if rows != 1 then LostLease(failure) else GivenUp(failure);
    }

    method GiveTaskBack(row: Row, failure: Failure, o: Outside) returns (outcome: Outcome, ghost answer: Answer)
      requires Valid() && OnlyOn(store.state, row.id, o.token)
      modifies store`state, store`trace, store`states, store`acts, store`places
      ensures store.Went() && HoldsNothing(store.state.db, o.token)
      ensures store.acts == old(store.acts) + [Statement(GiveBack(row.id, o.token, RunAfter(row, o)), answer)]
      ensures answer == Rows(if Held(old(store.state.db), row.id, o.token) then 1 else 0)
      ensures if answer == Rows(1) then outcome == GivenBack(failure, row.attempts + 1 >= row.maxAttempts) else outcome == LostLease(failure)
      ensures outcome.GivenBack? ==> GivenBackRight(store.state, old(store.state), row, o, outcome.final)
      ensures outcome.GivenBack? ==> WaitsAgain(store.state.db, row, o)
    {
      // The lease added one to the stored attempts, so the delay follows the attempt that just failed.
      var attempts := row.attempts + 1;
      ghost var before := store.state;
      var rows := store.TryGiveBack(row.id, o.token, o.settledAt + RetryDelay(attempts) + o.jitter);
      answer := Rows(rows);
      if rows != 1 {
        outcome := LostLease(failure);
      } else {
        GivenBackIsRight(before, row, o);
        GivenBackWaits(before, row, o);
        outcome := GivenBack(failure, attempts >= row.maxAttempts);
      }
    }

    // ---- A turn that came to a reply ---------------------------------------------------------

    /** The transaction that ends a turn. */
    method CommitTurn(row: Row, o: Outside, offer: bool) returns (answer: Answer)
      requires Valid() && OnlyOn(store.state, row.id, o.token) && IsRow(store.state, row)
      modifies store`state, store`trace, store`states, store`acts, store`places
      ensures Quiet() && Since(old(store.state), store.state, row, o)
      ensures store.acts == old(store.acts) + Stated(Committing(row, o, offer), answer)
      ensures answer == Written || answer.Rejected?
      ensures !o.commitFails && answer == Written ==> TaskAnswered(store.state.db, row, o.reply.id) && HoldsNothing(store.state.db, o.token)
      ensures answer == Rejected(LeaseLost) ==> HoldsNothing(store.state.db, o.token)
    {
      answer := Written;
      if !o.commitFails {
        answer := store.TryCommitTurn(row.id, o.token, o.reply.(offer := offer));
        LaterIsSince(old(store.state), store.state, row, o);
      }
    }

    /** The transaction, then the last renewals. */
    method CommitAndRenew(row: Row, o: Outside, offer: bool, before: Option<BeatError>)
      returns (beat: Option<BeatError>, answer: Answer, ghost late: Stretch)
      requires Valid() && OnlyOn(store.state, row.id, o.token) && IsRow(store.state, row) && o.chat.None?
      requires before == Some(BeatFoundLeaseLost) ==> HoldsNothing(store.state.db, o.token)
      modifies store, circuit, this`circuitSchedule
      ensures Quiet() && (answer == Written || answer.Rejected?)
      ensures Ran(before, o.lateBeats, late) && beat == After(before, o.lateBeats, late)
      ensures store.acts == old(store.acts) + EndingScript(row, o, offer, before, late, answer)
      ensures Leaves(store.state, row, o, Judged(beat, o, answer), Commits(o, answer))
    {
      answer := CommitTurn(row, o, offer);
      beat, late := Beat(row, o, o.lateBeats, before);
      InOneGo(old(store.acts), Stated(Committing(row, o, offer), answer), Renewals(row, o, late));
    }

    /** The verdict on a turn that came to a reply. */
    method Judge(beat: Option<BeatError>, answer: Answer, o: Outside) returns (outcome: Outcome)
      requires Valid() && (answer == Written || answer.Rejected?)
      modifies circuit, this`reports
      ensures Heard(outcome, o.settledAt) && outcome == Judged(beat, o, answer)
    {
      if beat.Some? {
        outcome := HeartbeatFailed(beat.value);
      } else if o.commitFails || answer.Rejected? {
        outcome := NotCommitted(if o.commitFails then None else Some(answer.error));
        Verdict(ReportReopen, o.settledAt);
      } else {
        outcome := Done;
        Verdict(ReportSuccess, o.settledAt);
      }
    }

    /** A verdict that ends a probe, for whichever circuit is in use. */
    method Verdict(report: Report, at: int)
      requires circuit.Valid() && !report.ReportOverload?
      modifies circuit, this`reports
      ensures circuit.Valid()
      ensures circuit.log == Grown(shared, old(circuit.log), [if report == ReportSuccess then Probe.Succeeded else Probe.Reopened(at)])
      ensures reports == if shared then old(reports) + [report] else old(reports)
      ensures !shared ==> AllTakenBack(old(circuit.log), circuit.log)
    {
      if shared {
        Tell(report);
      } else if report == ReportSuccess {
        circuit.RecordSuccess();
      } else {
        circuit.ReopenHalfOpenProbe(at);
      }
    }

    // ---- The turn and the dispatch -----------------------------------------------------------

    /** What follows the chat. */
    method Conclude(row: Row, o: Outside, offer: bool, beat: Option<BeatError>)
      returns (outcome: Outcome, ghost late: Stretch, ghost answer: Answer)
      requires Valid() && OnlyOn(store.state, row.id, o.token) && IsRow(store.state, row)
      requires beat == Some(BeatFoundLeaseLost) ==> HoldsNothing(store.state.db, o.token)
      modifies store, circuit, this`circuitSchedule, this`reports
      ensures Heard(outcome, o.settledAt) && outcome == Concluded(row, o, beat, late, answer)
      ensures store.acts == old(store.acts) + EndingScript(row, o, offer, beat, late, answer)
      ensures (o.chat.None? ==> Ran(beat, o.lateBeats, late)) && Leaves(store.state, row, o, outcome, Commits(o, answer))
      ensures o.chat.Some? && beat.None? && !o.updateFails && answer == Rows(1) ==> Settled(store.state.db, row, o.chat.value, o)
    {
      late, answer := Stretch(0, false), Rows(0);
      if o.chat.None? {
        var last, told;
        last, told, late := CommitAndRenew(row, o, offer, beat);
        answer := told;
        outcome := Judge(last, told, o);
      } else if beat.Some? {
        outcome := HeartbeatFailed(beat.value);
      } else {
        outcome, answer := FinishError(row, o.chat.value, o);
      }
    }

    /** Everything between the lease and the end of the turn. */
    method Work(row: Row, o: Outside) returns (outcome: Outcome, ghost t: Turn)
      requires Valid() && OnlyOn(store.state, row.id, o.token) && IsRow(store.state, row)
      modifies store, circuit, this`circuitSchedule, this`reports
      ensures Heard(outcome, o.settledAt) && TurnRan(o, t) && outcome == TurnOutcome(row, o, t)
      ensures store.acts == old(store.acts) + TurnScript(row, o, t)
      ensures Leaves(store.state, row, o, outcome, CommittedBy(o, t))
      ensures !o.updateFails && t.answer == Rows(1) ==> forall failure | FailsWith(o, t, failure) :: Settled(store.state.db, row, failure, o)
    {
      Others(row, o);
      ghost var nothing := Stretch(0, false);
      t := Turn(Preparation(nothing, nothing, None), nothing, nothing, Written);
      ghost var answer;
      if EarlyFailure(o).Some? {
        outcome, answer := FinishError(row, EarlyFailure(o).value, o);
        t := t.(answer := answer);
      } else {
        outcome, t := Converse(row, o);
      }
    }

    method Converse(row: Row, o: Outside) returns (outcome: Outcome, ghost t: Turn)
      requires Valid() && OnlyOn(store.state, row.id, o.token) && IsRow(store.state, row) && EarlyFailure(o).None?
      modifies store, circuit, this`circuitSchedule, this`reports
      ensures Heard(outcome, o.settledAt) && TurnRan(o, t) && outcome == TurnOutcome(row, o, t)
      ensures store.acts == old(store.acts) + TurnScript(row, o, t)
      ensures Leaves(store.state, row, o, outcome, CommittedBy(o, t))
      ensures !o.updateFails && t.answer == Rows(1) ==> forall failure | FailsWith(o, t, failure) :: Settled(store.state.db, row, failure, o)
    {
      var offer, beat;
      ghost var p, chat, late, answer;
      offer, beat, p, chat := AnalyzeAndChat(row, o);
      outcome, late, answer := Conclude(row, o, offer, beat);
      t := Turn(p, chat, late, answer);
      InOneGo(old(store.acts), AnalysisScript(row, o, p) + Renewals(row, o, chat), EndingScript(row, o, offer, beat, late, answer));
    }

    /** Ask whichever circuit is in use; the ticket is where in the log the probe is that passes. */
    method Enter(o: Outside) returns (allowed: bool, ghost ticket: Option<nat>)
      requires circuit.Valid()
      modifies circuit
      ensures circuit.Valid() && allowed == Admitted(shared, o, old(circuit.log)) && ticket == TicketOf(shared, o, old(circuit.log))
      ensures circuit.log == old(circuit.log) + AdmissionOf(shared, o, old(circuit.log))
      ensures ticket.Some? ==> allowed && ticket.value == |old(circuit.log)|
      ensures ticket.Some? ==> circuit.log == old(circuit.log) + [Probe.Probed(o.startedAt)]
    {
      ticket := TicketOf(shared, o, circuit.log);
      if shared {
        allowed := o.shared == Allowed;
      } else {
        allowed := circuit.Allow(o.startedAt);
      }
    }

    /** Lease the task; a dispatch that does not get it hands its probe back at once. */
    method Claim(row: Row, o: Outside) returns (claimed: bool, ghost leased: Answer)
      requires Valid() && IsRow(store.state, row)
      modifies store, circuit, this`circuitSchedule, this`reports
      ensures store.acts == old(store.acts) + Stated(Leasing(row, o), leased)
      ensures claimed == Claims(o, leased)
      ensures claimed ==> Quiet() && reports == old(reports)
      ensures claimed ==> OnlyOn(store.state, row.id, o.token) && IsRow(store.state, row)
      ensures !claimed ==> Heard(NotClaimed, o.settledAt)
    {
      claimed, leased := TryToLease(row, o);
      if !claimed {
        HandBack(o.settledAt);
      }
    }

    method TryToLease(row: Row, o: Outside) returns (claimed: bool, ghost leased: Answer)
      requires Valid() && IsRow(store.state, row)
      modifies store, circuit, this`circuitSchedule
      ensures Quiet() && store.acts == old(store.acts) + Stated(Leasing(row, o), leased) && claimed == Claims(o, leased)
      ensures claimed ==> OnlyOn(store.state, row.id, o.token) && IsRow(store.state, row)
    {
      store.Others();
      OthersOnCircuit();
      leased := Rows(0);
      claimed := false;
      if !o.leaseFails {
        var rows := store.TryLease(row.id, o.token);
        claimed, leased := rows == 1, Rows(rows);
      }
    }

    /** A dispatch without a task leaves its admission to the next one. */
    method HandBack(at: int)
      requires Valid()
      modifies circuit, this`reports
      ensures Heard(NotClaimed, at)
    {
      if shared {
        Tell(ReportReopen);
      } else {
        circuit.ReleaseHalfOpenProbe();
      }
    }

    /** The lease and the turn of a dispatch that was admitted. */
    method Proceed(row: Row, o: Outside) returns (outcome: Outcome, ghost leased: Answer, ghost t: Turn)
      requires Valid() && IsRow(store.state, row)
      modifies store, circuit, this`circuitSchedule, this`reports
      ensures Heard(outcome, o.settledAt) && outcome == DispatchOutcome(row, o, leased, t)
      ensures store.acts == old(store.acts) + DispatchScript(row, o, leased, t)
      ensures Claims(o, leased) ==> TurnRan(o, t)
      ensures Leaves(store.state, row, o, outcome, Claims(o, leased) && CommittedBy(o, t))
      ensures Claims(o, leased) && !o.updateFails && t.answer == Rows(1) ==>
                forall failure | FailsWith(o, t, failure) :: Settled(store.state.db, row, failure, o)
    {
      var claimed;
      claimed, leased := Claim(row, o);
      if claimed {
        outcome, t := Work(row, o);
        InOneGo(old(store.acts), Stated(Leasing(row, o), leased), TurnScript(row, o, t));
      } else {
        ghost var nothing := Stretch(0, false);
        outcome, t := NotClaimed, Turn(Preparation(nothing, nothing, None), nothing, nothing, Written);
      }
    }

    /**
      Lease the task if the circuit lets it pass, and see the turn through.

      The own statements are exactly the script that the answers make, in their order, and the
      outcome is the one that those answers make it. The token is off every task unless the
      outcome is an update, commit or renewal error; a reply is left behind exactly when its
      transaction succeeded; and the probe the dispatch was admitted with has been taken back,
      unless a renewal failed: then it stays out, however the turn ended.
    */
    method Dispatch(row: Row, o: Outside)
      returns (outcome: Outcome, ghost ticket: Option<nat>, ghost leased: Answer, ghost t: Turn)
      requires Valid() && IsRow(store.state, row)
      modifies store, circuit, this`circuitSchedule, this`reports
      ensures Went() && ticket == TicketOf(shared, o, old(circuit.log))
      ensures ticket.Some? <==> !shared && !outcome.CircuitOpen? && Probe.Until(old(circuit.log)).Some?
      ensures outcome.CircuitOpen? <==> !Admitted(shared, o, old(circuit.log))
      ensures outcome.CircuitOpen? ==>
                && store.trace == old(store.trace) && store.acts == old(store.acts)
                && reports == old(reports) && circuit.log == old(circuit.log)
      ensures !outcome.CircuitOpen? ==>
                && store.acts == old(store.acts) + DispatchScript(row, o, leased, t)
                && outcome == DispatchOutcome(row, o, leased, t) && (Claims(o, leased) ==> TurnRan(o, t))
                && Leaves(store.state, row, o, outcome, Claims(o, leased) && CommittedBy(o, t))
                && reports == if shared then old(reports) + ReportsOf(outcome) else old(reports)
      ensures Claims(o, leased) && !o.updateFails && t.answer == Rows(1) && !outcome.CircuitOpen? ==>
                forall failure | FailsWith(o, t, failure) ::
                  && Settled(store.state.db, row, failure, o)
                  && reports == if shared then old(reports) + Tells(failure) else old(reports)
      ensures !outcome.CircuitOpen? && !shared && old(circuitSchedule) == [] ==>
                circuit.log == old(circuit.log) + AdmissionOf(shared, o, old(circuit.log)) + EventsOf(outcome, o.settledAt)
      ensures ticket.Some? && !outcome.HeartbeatFailed? ==> Probe.Holder(circuit.log) != ticket
      ensures ticket.Some? && old(circuitSchedule) == [] ==> (Probe.Holder(circuit.log) == ticket <==> outcome.HeartbeatFailed?)
      ensures ticket.Some? && old(circuitSchedule) == [] ==>
                (Probe.Holder(circuit.log) == ticket <==> Claims(o, leased) && EarlyFailure(o).None? && SomeRenewalFails(o, t))
    {
      var allowed;
      allowed, ticket := Enter(o);
      ghost var log := circuit.log;
      if allowed {
        outcome, leased, t := Proceed(row, o);
        DispatchIsHeard(row, o, leased, t);
        if ticket.Some? {
          TicketIsAtTheEnd(old(circuit.log), log, circuit.log, outcome, o);
          EndsWithRenewalErrorExactlyWhen(row, o, leased, t);
        }
      } else {
        ghost var nothing := Stretch(0, false);
        outcome, leased, t := CircuitOpen, Rows(0), Turn(Preparation(nothing, nothing, None), nothing, nothing, Written);
      }
    }
  }
}
