/**
  Admission to the queue with the count a new send really has. Its first plain read opens the
  snapshot of the transaction, before the governance lock is granted, so the active tasks it
  counts are those of that moment; a requeue takes the lock first. How far the queue can exceed
  its capacity, and why everything else proved of the protocol holds regardless.
*/
module QueueAdmission {
  import opened Options
  import opened MessageTables
  import opened MessageProtocol
  import opened MessageInvariant
  import opened MessageGuarantees

  /** The tables, and what each send under way has counted. */
  datatype Late = Late(core: State, open: map<nat, nat>)

  datatype LateAction = Does(action: Action) | Open(sender: nat) | SendLate(sender: nat, limit: int, draft: Draft)

  /** A send that needs a task opens its snapshot in one action and writes in another. */
  function LateStep(s: Late, a: LateAction): Late {
    match a
    case Does(action) =>
      if action.Send? && action.draft.route.ToAgent? then s else s.(core := Step(s.core, action))
    case Open(sender) => s.(open := s.open[sender := |ActiveTasks(s.core.db)|])
    case SendLate(sender, limit, draft) =>
      if sender !in s.open then s
      else
        match ReserveCounting(s.core.db, s.core.capacity, s.open[sender], limit, draft)
        case Ok(r) => Late(s.core.(db := r.db), s.open - {sender})
        case Err(_) => Late(s.core, s.open - {sender})
  }

  function LateRun(capacity: int, trace: seq<LateAction>): Late {
    if trace == [] then Late(Init(capacity), map[])
    else LateStep(LateRun(capacity, trace[..|trace| - 1]), trace[|trace| - 1])
  }

  /** The most sends that ever stood between their count and their write. */
  function Peak(capacity: int, trace: seq<LateAction>): nat {
    if trace == [] then 0
    else
      var before, now := Peak(capacity, trace[..|trace| - 1]), |LateRun(capacity, trace).open|;
      if now > before then now else before
  }

  /** The sends under way whose count still lets them in. */
  function Live(s: Late): set<nat> {
    set x <- s.open | s.open[x] < s.core.capacity
  }

  function Widened(s: State, capacity: int): State {
    s.(capacity := capacity)
  }

  // ---- The bound -----------------------------------------------------------------------------

  /** An action that asks for no room does the same under any capacity. */
  lemma CapacityDoesNotMatter(s: State, a: Action, capacity: int)
    requires !a.Requeue? && !(a.Send? && a.draft.route.ToAgent?)
    ensures Step(Widened(s, capacity), a) == Widened(Step(s, a), capacity)
  {
  }

  lemma RequeueFits(s: State, message: Id)
    requires TasksAreSound(s) && RequeueWithAdmission(s.db, s.capacity, message).Ok?
    ensures |ActiveTasks(Step(s, Requeue(message)).db)| <= s.capacity
  {
    RequeueKeepsCapacity(s, message);
  }

  lemma LateSendAdds(s: Late, sender: nat, limit: int, draft: Draft)
    requires sender in s.open
    ensures var t := LateStep(s, SendLate(sender, limit, draft));
            || ActiveTasks(t.core.db) == ActiveTasks(s.core.db)
            || (sender in Live(s) && draft.route.ToAgent? && |ActiveTasks(t.core.db)| == |ActiveTasks(s.core.db)| + 1)
  {
    var r := ReserveCounting(s.core.db, s.core.capacity, s.open[sender], limit, draft);
    if r.Ok? && r.value.existing.None? && draft.route.ToAgent? {
      var db1 := InsertMessage(s.core.db, draft.id, VisitorRow(s.core.db, draft)).value;
      NewTaskIsActive(db1, r.value.db, draft.route.task, draft);
      assert ActiveTasks(db1) == ActiveTasks(s.core.db);
    }
  }

  /** With room to spare, an outdated count decides nothing. */
  lemma RoomierSendIsTheSame(s: Late, sender: nat, limit: int, draft: Draft, capacity: int)
    requires sender in s.open && capacity > 0 && (draft.route.ToAgent? ==> |ActiveTasks(s.core.db)| < capacity)
    requires ReserveCounting(s.core.db, s.core.capacity, s.open[sender], limit, draft).Ok?
    ensures Step(Widened(s.core, capacity), Send(limit, draft))
         == Widened(LateStep(s, SendLate(sender, limit, draft)).core, capacity)
  {
  }

  lemma PeakCovers(capacity: int, trace: seq<LateAction>)
    requires trace != []
    ensures Peak(capacity, trace[..|trace| - 1]) <= Peak(capacity, trace) && |LateRun(capacity, trace).open| <= Peak(capacity, trace)
  {
  }

  /** The count of active tasks and the live sends together stay within the capacity and k. */
  ghost predicate Bounded(s: Late, capacity: int, k: nat) {
    s.core.capacity == capacity && |ActiveTasks(s.core.db)| + |Live(s)| <= capacity + k
  }

  lemma OpenStaysBounded(s: Late, capacity: int, k: nat, sender: nat)
    requires capacity > 0 && Bounded(s, capacity, k) && |LateStep(s, Open(sender)).open| <= k
    ensures Bounded(LateStep(s, Open(sender)), capacity, k)
  {
    var t := LateStep(s, Open(sender));
    if |ActiveTasks(s.core.db)| < capacity {
      SubsetIsNotLarger(Live(t), t.open.Keys);
    } else {
      SubsetIsNotLarger(Live(t), Live(s));
    }
  }

  lemma SendStaysBounded(s: Late, capacity: int, k: nat, sender: nat, limit: int, draft: Draft)
    requires Bounded(s, capacity, k) && sender in s.open
    ensures Bounded(LateStep(s, SendLate(sender, limit, draft)), capacity, k)
  {
    var t := LateStep(s, SendLate(sender, limit, draft));
    LateSendAdds(s, sender, limit, draft);
    assert Live(t) == Live(s) - {sender};
    SubsetIsNotLarger(Live(t), Live(s));
  }

  lemma ActionStaysBounded(s: Late, capacity: int, k: nat, a: Action)
    requires Bounded(s, capacity, k) && |s.open| <= k && TasksAreSound(s.core)
    ensures Bounded(LateStep(s, Does(a)), capacity, k)
  {
    var t := LateStep(s, Does(a));
    assert Live(t) == Live(s);
    if a.Requeue? {
      if RequeueWithAdmission(s.core.db, s.core.capacity, a.message).Ok? {
        RequeueFits(s.core, a.message);
        SubsetIsNotLarger(Live(s), s.open.Keys);
      }
    } else if !(a.Send? && a.draft.route.ToAgent?) {
      OnlyAdmissionsLetIn(s.core, a);
      SubsetIsNotLarger(ActiveTasks(t.core.db), ActiveTasks(s.core.db));
    }
  }

  /**
    A run with outdated counts is a run of the protocol whose queue holds as many tasks more as
    there were ever sends between count and write: whatever holds of all runs holds of it.
  */
  lemma {:induction false} LateRunIsARun(capacity: int, trace: seq<LateAction>, k: nat) returns (plain: seq<Action>)
    requires capacity > 0 && Peak(capacity, trace) <= k
    ensures Run(Init(capacity + k), plain) == Widened(LateRun(capacity, trace).core, capacity + k)
    ensures Bounded(LateRun(capacity, trace), capacity, k)
    decreases |trace|
  {
    if trace == [] {
      assert ActiveTasks(Init(capacity).db) == {} && Live(LateRun(capacity, trace)) == {};
      return [];
    }
    var a := trace[|trace| - 1];
    PeakCovers(capacity, trace);
    plain := LateRunIsARun(capacity, trace[..|trace| - 1], k);
    var s := LateRun(capacity, trace[..|trace| - 1]);
    match a {
      case Open(sender) => OpenStaysBounded(s, capacity, k, sender);
      case SendLate(sender, limit, draft) =>
        if sender in s.open {
          SendStaysBounded(s, capacity, k, sender, limit, draft);
          plain := SendInTheRun(s, capacity, k, plain, sender, limit, draft);
        }
      case Does(action) =>
        LateTasksAreSound(s.core, capacity + k, plain);
        ActionStaysBounded(s, capacity, k, action);
        plain := ActionInTheRun(s, capacity, k, plain, action);
    }
  }

  lemma LateTasksAreSound(s: State, capacity: int, plain: seq<Action>)
    requires Run(Init(capacity), plain) == Widened(s, capacity)
    ensures TasksAreSound(s)
  {
    ReachableSatisfiesInv(capacity, plain);
    forall k <- s.db.tasks ensures TaskIsSound(s, s.db.tasks[k]) {
      assert TaskIsSound(Widened(s, capacity), s.db.tasks[k]);
    }
  }

  lemma SendInTheRun(s: Late, capacity: int, k: nat, plain: seq<Action>, sender: nat, limit: int, draft: Draft)
    returns (longer: seq<Action>)
    requires capacity > 0 && Bounded(s, capacity, k) && sender in s.open
    requires Run(Init(capacity + k), plain) == Widened(s.core, capacity + k)
    ensures Run(Init(capacity + k), longer) == Widened(LateStep(s, SendLate(sender, limit, draft)).core, capacity + k)
  {
    var r := ReserveCounting(s.core.db, s.core.capacity, s.open[sender], limit, draft);
    if r.Err? || r.value.existing.Some? {
      longer := plain;
    } else {
      longer := plain + [Send(limit, draft)];
      RunOneMore(Init(capacity + k), plain, Send(limit, draft));
      if draft.route.ToAgent? {
        assert sender in Live(s);
        SubsetIsNotLarger({sender}, Live(s));
      }
      RoomierSendIsTheSame(s, sender, limit, draft, capacity + k);
    }
  }

  lemma ActionInTheRun(s: Late, capacity: int, k: nat, plain: seq<Action>, a: Action) returns (longer: seq<Action>)
    requires capacity > 0 && s.core.capacity == capacity
    requires Run(Init(capacity + k), plain) == Widened(s.core, capacity + k)
    ensures Run(Init(capacity + k), longer) == Widened(LateStep(s, Does(a)).core, capacity + k)
  {
    longer := plain;
    if a.Requeue? {
      if RequeueWithAdmission(s.core.db, capacity, a.message).Ok? {
        longer := plain + [a];
        RunOneMore(Init(capacity + k), plain, a);
      }
    } else if !(a.Send? && a.draft.route.ToAgent?) {
      longer := plain + [a];
      RunOneMore(Init(capacity + k), plain, a);
      CapacityDoesNotMatter(s.core, a, capacity + k);
    }
  }

  /** The queue exceeds its capacity by no more than the sends that ever stood between count and write. */
  lemma LateQueueIsBounded(capacity: int, trace: seq<LateAction>)
    requires capacity > 0
    ensures |ActiveTasks(LateRun(capacity, trace).core.db)| <= capacity + Peak(capacity, trace)
  {
    var _ := LateRunIsARun(capacity, trace, Peak(capacity, trace));
  }

  // ---- One outdated count --------------------------------------------------------------------

  /** Some step of the run's end let a task in. */
  predicate SomethingEnters(capacity: int, first: seq<LateAction>, more: seq<LateAction>) {
    more != []
    && (SomethingEnters(capacity, first, more[..|more| - 1])
        || |ActiveTasks(LateRun(capacity, first + more).core.db)|
           > |ActiveTasks(LateRun(capacity, first + more[..|more| - 1]).core.db)|)
  }

  predicate LeavesSender(more: seq<LateAction>, sender: nat) {
    forall a <- more :: (a.Open? ==> a.sender != sender) && (a.SendLate? ==> a.sender != sender)
  }

  /** Until something enters, a count is no lower than the queue. */
  lemma {:induction false} CountHolds(capacity: int, first: seq<LateAction>, more: seq<LateAction>, sender: nat)
    requires LeavesSender(more, sender) && sender in LateRun(capacity, first).open
    requires LateRun(capacity, first).open[sender] == |ActiveTasks(LateRun(capacity, first).core.db)|
    ensures var s, t := LateRun(capacity, first), LateRun(capacity, first + more);
            && sender in t.open && t.open[sender] == s.open[sender]
            && (SomethingEnters(capacity, first, more) || |ActiveTasks(t.core.db)| <= t.open[sender])
    decreases |more|
  {
    if more == [] {
      assert first + more == first;
    } else {
      var a := more[|more| - 1];
      assert a in more && forall b <- more[..|more| - 1] :: b in more;
      CountHolds(capacity, first, more[..|more| - 1], sender);
      assert (first + more)[..|first + more| - 1] == first + more[..|more| - 1];
      OthersLeaveCount(LateRun(capacity, first + more[..|more| - 1]), a, sender);
    }
  }

  lemma OthersLeaveCount(s: Late, a: LateAction, sender: nat)
    requires sender in s.open && (a.Open? ==> a.sender != sender) && (a.SendLate? ==> a.sender != sender)
    ensures sender in LateStep(s, a).open && LateStep(s, a).open[sender] == s.open[sender]
  {
  }

  lemma {:induction false} CapacityIsKept(capacity: int, trace: seq<LateAction>)
    ensures LateRun(capacity, trace).core.capacity == capacity
    decreases |trace|
  {
    if trace != [] {
      CapacityIsKept(capacity, trace[..|trace| - 1]);
      StepKeepsCapacity(LateRun(capacity, trace[..|trace| - 1]), trace[|trace| - 1]);
    }
  }

  lemma StepKeepsCapacity(s: Late, a: LateAction)
    ensures LateStep(s, a).core.capacity == s.core.capacity
  {
    if a.Does? {
      StepKeepsFacts(s.core, a.action);
    }
  }

  /**
    A write that lets a task in keeps the queue within its capacity exactly when there still is
    room at that moment, and so whenever no task has entered since it counted.
  */
  lemma OutdatedCountKeepsBoundExactlyWhen(capacity: int, first: seq<LateAction>, more: seq<LateAction>,
                                           sender: nat, limit: int, draft: Draft)
    requires capacity > 0 && LeavesSender(more, sender)
    requires var s := LateRun(capacity, first + [Open(sender)] + more);
             ActiveTasks(LateStep(s, SendLate(sender, limit, draft)).core.db) != ActiveTasks(s.core.db)
    ensures var s := LateRun(capacity, first + [Open(sender)] + more);
            var t := LateStep(s, SendLate(sender, limit, draft));
            && (|ActiveTasks(t.core.db)| <= capacity <==> |ActiveTasks(s.core.db)| < capacity)
            && (!SomethingEnters(capacity, first + [Open(sender)], more) ==> |ActiveTasks(t.core.db)| <= capacity)
  {
    var counted := first + [Open(sender)];
    assert counted[..|counted| - 1] == first;
    CapacityIsKept(capacity, counted + more);
    CountHolds(capacity, counted, more, sender);
    LateSendAdds(LateRun(capacity, counted + more), sender, limit, draft);
  }

  // ---- The bound is reached ------------------------------------------------------------------

  ghost predicate IsRange(s: set<nat>, low: nat, high: nat) {
    forall i: nat :: i in s <==> low <= i < high
  }

  lemma {:induction false} RangeCounts(s: set<nat>, low: nat, high: nat)
    requires IsRange(s, low, high) && low <= high
    ensures |s| == high - low
    decreases high
  {
    if high > low {
      RangeCounts(s - {high - 1}, low, high - 1);
    } else {
      assert s == {};
    }
  }

  function Asked(i: nat): Message {
    Message(i, Visitor, None, None, false, 0)
  }

  predicate IsRow(t: Task, i: nat, failed: bool) {
    t.message == i && t.session == i && t.status == if i == 0 && failed then Failed else Queued
  }

  /** Messages 0 to m - 1, each of its own session with its own task; the first has failed, the others wait. */
  ghost predicate Rows(s: State, m: nat, failed: bool) {
    && s.db.now == 0
    && (forall i: Id :: i in s.db.messages <==> i < m) && (forall i: Id :: i in s.db.tasks <==> i < m)
    && (forall i <- s.db.messages :: s.db.messages[i] == Asked(i))
    && (forall i <- s.db.tasks :: IsRow(s.db.tasks[i], i, failed))
  }

  lemma RowsCount(s: State, m: nat, failed: bool)
    requires Rows(s, m, failed) && (failed ==> m > 0)
    ensures |ActiveTasks(s.db)| == if failed then m - 1 else m
  {
    var low := if failed then 1 else 0;
    forall i: nat ensures i in ActiveTasks(s.db) <==> low <= i < m {
      assert i in s.db.tasks ==> IsRow(s.db.tasks[i], i, failed);
    }
    RangeCounts(ActiveTasks(s.db), low, m);
  }

  function Next(m: nat): Draft {
    Draft(m, m, None, ToAgent(m))
  }

  lemma SendWrites(db: Tables, capacity: int, counted: nat, m: nat)
    requires counted < capacity && db.now == 0 && m !in db.messages && m !in db.tasks
    requires forall i <- db.messages :: db.messages[i].session != m
    requires forall k <- db.tasks :: db.tasks[k].message != m
    ensures ReserveCounting(db, capacity, counted, 1, Next(m))
         == Ok(Reserved(db.(messages := db.messages[m := Asked(m)],
                            tasks := db.tasks[m := Task(m, m, Queued, 0, MAX_ATTEMPTS, 0, None, None)]), None))
  {
    assert VisitorMessages(db, m) == {};
  }

  lemma SendAddsARow(s: Late, m: nat, failed: bool, sender: nat) returns (t: Late)
    requires Rows(s.core, m, failed) && sender in Live(s)
    ensures t == LateStep(s, SendLate(sender, 1, Next(m)))
    ensures Rows(t.core, m + 1, failed && m > 0) && t.open == s.open - {sender} && t.core.capacity == s.core.capacity
    ensures t.core.tokens == s.core.tokens && m in t.core.db.tasks
    ensures t.core.db.tasks[m] == Task(m, m, Queued, 0, MAX_ATTEMPTS, 0, None, None)
  {
    forall k <- s.core.db.tasks ensures s.core.db.tasks[k].message != m {
      assert IsRow(s.core.db.tasks[k], k, failed);
    }
    SendWrites(s.core.db, s.core.capacity, s.open[sender], m);
    t := LateStep(s, SendLate(sender, 1, Next(m)));
  }

  /** Some run comes to this state with no more than so many sends ever under way. */
  ghost predicate Reached(capacity: int, s: Late, k: nat) {
    exists trace :: LateRun(capacity, trace) == s && Peak(capacity, trace) <= k
  }

  lemma ReachedNext(capacity: int, s: Late, k: nat, a: LateAction, t: Late)
    requires Reached(capacity, s, k) && t == LateStep(s, a) && |t.open| <= k
    ensures Reached(capacity, t, k)
  {
    var trace :| LateRun(capacity, trace) == s && Peak(capacity, trace) <= k;
    var longer := trace + [a];
    assert longer[..|longer| - 1] == trace;
    assert LateRun(capacity, longer) == t && Peak(capacity, longer) <= k;
  }

  lemma ReachedFirst(capacity: int, k: nat)
    ensures Reached(capacity, Late(Init(capacity), map[]), k)
  {
    assert LateRun(capacity, []) == Late(Init(capacity), map[]) && Peak(capacity, []) <= k;
  }

  /** Count, and write at once. */
  lemma SendAtOnce(capacity: int, s: Late, k: nat, m: nat, failed: bool) returns (t: Late)
    requires k >= 1 && Reached(capacity, s, k) && Rows(s.core, m, failed) && (failed ==> m > 0)
    requires s.open == map[] && s.core.capacity == capacity && (if failed then m - 1 else m) < capacity
    ensures Reached(capacity, t, k) && Rows(t.core, m + 1, failed) && t.open == map[] && t.core.capacity == capacity
    ensures t.core.tokens == s.core.tokens && m in t.core.db.tasks
    ensures t.core.db.tasks[m] == Task(m, m, Queued, 0, MAX_ATTEMPTS, 0, None, None)
  {
    RowsCount(s.core, m, failed);
    var counted := LateStep(s, Open(0));
    ReachedNext(capacity, s, k, Open(0), counted);
    t := SendAddsARow(counted, m, failed, 0);
    ReachedNext(capacity, counted, k, SendLate(0, 1, Next(m)), t);
    assert t.open == map[];
  }

  lemma LeasedAndGivenUp(s: State)
    requires Rows(s, 1, false) && s.tokens == {} && s.db.tasks[0] == Task(0, 0, Queued, 0, MAX_ATTEMPTS, 0, None, None)
    ensures var t := Step(Step(s, TakeLease(0, 0)), GiveUp(0, 0)); Rows(t, 1, true) && t.capacity == s.capacity
  {
    assert Leasable(s.db, 0);
  }

  /** A first task that failed, behind it waiting ones, and nobody under way. */
  ghost predicate Filled(capacity: int, s: Late, k: nat, m: nat) {
    Reached(capacity, s, k) && Rows(s.core, m, true) && s.core.capacity == capacity && s.open == map[]
  }

  lemma FirstFails(capacity: int, k: nat) returns (s: Late)
    requires capacity >= 1 && k >= 1
    ensures Filled(capacity, s, k, 1)
  {
    ReachedFirst(capacity, k);
    var sent := SendAtOnce(capacity, Late(Init(capacity), map[]), k, 0, false);
    var leased := LateStep(sent, Does(TakeLease(0, 0)));
    s := LateStep(leased, Does(GiveUp(0, 0)));
    LeasedAndGivenUp(sent.core);
    ReachedNext(capacity, sent, k, Does(TakeLease(0, 0)), leased);
    ReachedNext(capacity, leased, k, Does(GiveUp(0, 0)), s);
  }

  lemma {:induction false} FillTo(capacity: int, k: nat, m: nat) returns (s: Late)
    requires 1 <= m <= capacity && k >= 1
    ensures Filled(capacity, s, k, m)
    decreases m
  {
    if m == 1 {
      s := FirstFails(capacity, k);
    } else {
      var before := FillTo(capacity, k, m - 1);
      s := SendAtOnce(capacity, before, k, m - 1, true);
    }
  }

  /** So many senders have counted one task less than the queue holds. */
  ghost predicate Counted(capacity: int, s: Late, k: nat, j: nat) {
    && capacity >= 1 && Reached(capacity, s, k) && Rows(s.core, capacity, true) && s.core.capacity == capacity
    && IsRange(s.open.Keys, 0, j) && forall x <- s.open :: s.open[x] == capacity - 1
  }

  lemma {:induction false} CountFor(capacity: int, k: nat, j: nat) returns (s: Late)
    requires capacity >= 1 && k >= 1 && j <= k
    ensures Counted(capacity, s, k, j)
    decreases j
  {
    if j == 0 {
      s := FillTo(capacity, k, capacity);
    } else {
      var before := CountFor(capacity, k, j - 1);
      RowsCount(before.core, capacity, true);
      s := LateStep(before, Open(j - 1));
      RangeCounts(s.open.Keys, 0, j);
      ReachedNext(capacity, before, k, Open(j - 1), s);
    }
  }

  lemma RequeueRevives(s: State)
    requires 1 <= s.capacity && Rows(s, s.capacity, true)
    ensures Rows(Step(s, Requeue(0)), s.capacity, false) && Step(s, Requeue(0)).capacity == s.capacity
  {
    RowsCount(s, s.capacity, true);
  }

  /** The failed task is back in the queue, and i of the k senders have written. */
  ghost predicate Over(capacity: int, s: Late, k: nat, i: nat) {
    && capacity >= 1 && Reached(capacity, s, k) && Rows(s.core, capacity + i, false) && s.core.capacity == capacity
    && IsRange(s.open.Keys, i, k) && forall x <- s.open :: s.open[x] == capacity - 1
  }

  lemma Revived(capacity: int, k: nat) returns (s: Late)
    requires capacity >= 1 && k >= 1
    ensures Over(capacity, s, k, 0)
  {
    var before := CountFor(capacity, k, k);
    s := LateStep(before, Does(Requeue(0)));
    RequeueRevives(before.core);
    RangeCounts(s.open.Keys, 0, k);
    ReachedNext(capacity, before, k, Does(Requeue(0)), s);
  }

  lemma OneMoreOver(capacity: int, before: Late, k: nat, i: nat) returns (s: Late)
    requires i < k && Over(capacity, before, k, i)
    ensures Over(capacity, s, k, i + 1)
  {
    assert i in before.open;
    s := SendAddsARow(before, capacity + i, false, i);
    FewerOpen(capacity, before.open, k, i);
    ReachedNext(capacity, before, k, SendLate(i, 1, Next(capacity + i)), s);
  }

  lemma FewerOpen(capacity: int, open: map<nat, nat>, k: nat, i: nat)
    requires i < k && IsRange(open.Keys, i, k) && forall x <- open :: open[x] == capacity - 1
    ensures var fewer := open - {i};
            IsRange(fewer.Keys, i + 1, k) && |fewer| <= k && forall x <- fewer :: fewer[x] == capacity - 1
  {
    var fewer := open - {i};
    assert IsRange(fewer.Keys, i + 1, k);
    RangeCounts(fewer.Keys, i + 1, k);
    assert |fewer| == |fewer.Keys|;
  }

  lemma {:induction false} SendOver(capacity: int, k: nat, i: nat) returns (s: Late)
    requires capacity >= 1 && k >= 1 && i <= k
    ensures Over(capacity, s, k, i)
    decreases i
  {
    if i == 0 {
      s := Revived(capacity, k);
    } else {
      var before := SendOver(capacity, k, i - 1);
      s := OneMoreOver(capacity, before, k, i - 1);
    }
  }

  ghost predicate CanHold(capacity: int, k: nat, n: nat) {
    exists s :: Reached(capacity, s, k) && |ActiveTasks(s.core.db)| >= n
  }

  /** With k sends at a time between count and write, the queue can come to hold n tasks exactly when n is within capacity and k. */
  lemma QueueCanHoldExactly(capacity: int, k: nat, n: nat)
    requires capacity > 0 && k > 0
    ensures CanHold(capacity, k, n) <==> n <= capacity + k
  {
    if n <= capacity + k {
      var s := SendOver(capacity, k, k);
      RowsCount(s.core, capacity + k, false);
      assert Reached(capacity, s, k);
    }
    forall s | Reached(capacity, s, k) && |ActiveTasks(s.core.db)| >= n ensures n <= capacity + k {
      var trace :| LateRun(capacity, trace) == s && Peak(capacity, trace) <= k;
      LateQueueIsBounded(capacity, trace);
    }
  }
}
