/** The in-memory job queue: a sorted slice that is appended to, sorted and compacted in place. */
module MemoryQueue {
  datatype Entry = Entry(jobId: string, score: int)

  // ---- The queue as a value ------------------------------------------------------------------

  ghost predicate Sorted(q: seq<Entry>) {
    forall i, j | 0 <= i < j < |q| :: q[i].score <= q[j].score
  }

  ghost predicate UniqueIds(q: seq<Entry>) {
    forall i, j | 0 <= i < j < |q| :: q[i].jobId != q[j].jobId
  }

  predicate Holds(q: seq<Entry>, jobId: string) {
    exists e <- q :: e.jobId == jobId
  }

  function Ids(q: seq<Entry>): seq<string> {
    seq(|q|, i requires 0 <= i < |q| => q[i].jobId)
  }

  /** The first index from i on whose entry is due later. */
  function PlaceFrom(q: seq<Entry>, i: nat, score: int): (n: nat)
    requires i <= |q|
    ensures i <= n <= |q|
    decreases |q| - i
  {
    if i == |q| || q[i].score > score then i else PlaceFrom(q, i + 1, score)
  }

  /** Behind everything that is due no later. */
  function Place(q: seq<Entry>, score: int): (n: nat)
    ensures n <= |q|
  {
    PlaceFrom(q, 0, score)
  }

  /** How many entries at the front are due and within the limit, from i on. */
  function TakesFrom(q: seq<Entry>, i: nat, limit: int, now: int): (n: nat)
    requires i <= |q|
    ensures i <= n <= |q|
    decreases |q| - i
  {
    if i == |q| || limit <= i || q[i].score > now then i else TakesFrom(q, i + 1, limit, now)
  }

  function Takes(q: seq<Entry>, limit: int, now: int): (n: nat)
    ensures n <= |q|
  {
    TakesFrom(q, 0, limit, now)
  }

  lemma {:induction false} PlaceFromIs(q: seq<Entry>, i: nat, n: nat, score: int)
    requires i <= n <= |q|
    requires (forall j | i <= j < n :: q[j].score <= score) && (n < |q| ==> q[n].score > score)
    ensures PlaceFrom(q, i, score) == n
    decreases n - i
  {
    if i < n {
      PlaceFromIs(q, i + 1, n, score);
    }
  }

  lemma {:induction false} PlaceFromSplits(q: seq<Entry>, i: nat, score: int)
    requires i <= |q|
    ensures var n := PlaceFrom(q, i, score);
            (forall j | i <= j < n :: q[j].score <= score) && (n < |q| ==> q[n].score > score)
    decreases |q| - i
  {
    if i < |q| && q[i].score <= score {
      PlaceFromSplits(q, i + 1, score);
    }
  }

  /** What is taken is due and within the limit, and the next entry is not. */
  lemma {:induction false} TakesFromSplits(q: seq<Entry>, i: nat, limit: int, now: int)
    requires i <= |q|
    ensures var n := TakesFrom(q, i, limit, now);
            && (forall j | i <= j < n :: q[j].score <= now && j < limit)
            && (n < |q| && n < limit ==> q[n].score > now)
    decreases |q| - i
  {
    if i < |q| && i < limit && q[i].score <= now {
      TakesFromSplits(q, i + 1, limit, now);
    }
  }

  function InsertAt(q: seq<Entry>, n: nat, e: Entry): (longer: seq<Entry>)
    requires n <= |q|
  {
    q[..n] + [e] + q[n..]
  }

  function Added(q: seq<Entry>, e: Entry): seq<Entry> {
    if Holds(q, e.jobId) then q else InsertAt(q, Place(q, e.score), e)
  }

  lemma AddedKeepsOrder(q: seq<Entry>, e: Entry)
    requires Sorted(q) && UniqueIds(q)
    ensures Sorted(Added(q, e)) && UniqueIds(Added(q, e))
  {
    if !Holds(q, e.jobId) {
      PlaceFromSplits(q, 0, e.score);
      InsertKeepsSorted(q, Place(q, e.score), e);
      InsertKeepsUnique(q, Place(q, e.score), e);
    }
  }

  /** The new entry stands behind everything due no later and before everything due later. */
  ghost predicate StandsIn(q: seq<Entry>, e: Entry, longer: seq<Entry>) {
    exists n | 0 <= n <= |q| :: StandsAt(q, e, longer, n)
  }

  predicate StandsAt(q: seq<Entry>, e: Entry, longer: seq<Entry>, n: int)
    requires 0 <= n <= |q|
  {
    && longer == q[..n] + [e] + q[n..]
    && (forall j | 0 <= j < n :: q[j].score <= e.score) && (forall j | n <= j < |q| :: q[j].score > e.score)
  }

  /** A job that is queued is not queued again; a new one stands in line by its due time, and last among equals. */
  lemma AddedExactlyWhen(q: seq<Entry>, e: Entry)
    requires Sorted(q)
    ensures (exists i :: 0 <= i < |q| && q[i].jobId == e.jobId) ==> Added(q, e) == q
    ensures (forall i | 0 <= i < |q| :: q[i].jobId != e.jobId) ==> StandsIn(q, e, Added(q, e))
  {
    if i :| 0 <= i < |q| && q[i].jobId == e.jobId {
      assert q[i] in q;
    }
    PlaceFromSplits(q, 0, e.score);
    if forall i | 0 <= i < |q| :: q[i].jobId != e.jobId {
      assert StandsAt(q, e, Added(q, e), Place(q, e.score));
    }
  }

  lemma InsertKeepsSorted(q: seq<Entry>, n: nat, e: Entry)
    requires Sorted(q) && n <= |q|
    requires (forall j | 0 <= j < n :: q[j].score <= e.score) && (n < |q| ==> q[n].score > e.score)
    ensures Sorted(InsertAt(q, n, e))
  {
  }

  lemma InsertKeepsUnique(q: seq<Entry>, n: nat, e: Entry)
    requires UniqueIds(q) && n <= |q| && !Holds(q, e.jobId)
    ensures UniqueIds(InsertAt(q, n, e))
  {
    assert forall i | 0 <= i < |q| :: q[i] in q && q[i].jobId != e.jobId;
  }

  lemma InsertedIs(q: seq<Entry>, n: nat, e: Entry, longer: seq<Entry>)
    requires Sorted(q) && n <= |q| && |longer| == |q| + 1
    requires (n > 0 ==> q[n - 1].score <= e.score) && (n < |q| ==> q[n].score > e.score)
    requires longer[n] == e && forall i | 0 <= i < n :: longer[i] == q[i]
    requires forall i | n < i < |longer| :: longer[i] == q[i - 1]
    ensures longer == InsertAt(q, Place(q, e.score), e)
  {
    PlaceFromIs(q, 0, n, e.score);
    assert longer == InsertAt(q, n, e);
  }

  lemma RestKeepsOrder(q: seq<Entry>, k: nat)
    requires k <= |q| && Sorted(q) && UniqueIds(q)
    ensures Sorted(q[k..]) && UniqueIds(q[k..])
  {
  }

  /** Exactly what is due is taken, up to the limit: below the limit nothing due stays behind. */
  lemma TakesAllThatIsDue(q: seq<Entry>, limit: int, now: int)
    requires Sorted(q)
    ensures var k := Takes(q, limit, now);
            && (forall i | 0 <= i < |q| :: i < k <==> q[i].score <= now && i < limit)
            && (k < limit ==> forall i | k <= i < |q| :: q[i].score > now)
            && (k > 0 ==> k <= limit)
  {
    TakesFromSplits(q, 0, limit, now);
    var k := Takes(q, limit, now);
    assert k > 0 ==> q[k - 1].score <= now;
  }

  // ---- The queue in place --------------------------------------------------------------------

  lemma OneMoreId(q: seq<Entry>, i: nat)
    requires i < |q|
    ensures Ids(q[..i]) + [q[i].jobId] == Ids(q[..i + 1])
  {
  }

  class Queue {
    /** The backing array and how much of it the slice covers. */
    var entries: array<Entry>
    var count: nat

    ghost predicate Valid()
      reads this, entries
    {
      count <= entries.Length && Sorted(Contents()) && UniqueIds(Contents())
    }

    ghost function Contents(): seq<Entry>
      reads this, entries
      requires count <= entries.Length
    {
      entries[..count]
    }

    constructor ()
      ensures Valid() && Contents() == [] && fresh(entries)
    {
      entries := new Entry[0];
      count := 0;
    }

    method Find(jobId: string) returns (found: bool)
      requires Valid()
      ensures found == Holds(Contents(), jobId)
    {
      for i := 0 to count
        invariant forall j | 0 <= j < i :: entries[j].jobId != jobId
      {
        if entries[i].jobId == jobId {
          assert Contents()[i].jobId == jobId;
          return true;
        }
      }
      found := false;
    }

    /** Make room for one more entry; a full backing array is replaced. */
    method MakeRoom(e: Entry)
      requires count <= entries.Length
      modifies this
      ensures count == old(count) < entries.Length && Contents() == old(Contents())
      ensures entries == old(entries) || fresh(entries)
    {
      if count == entries.Length {
        var bigger := new Entry[2 * count + 1](_ => e);
        forall i | 0 <= i < count {
          bigger[i] := entries[i];
        }
        assert bigger[..count] == entries[..count];
        entries := bigger;
      }
    }

    method Add(e: Entry)
      requires Valid()
      modifies this, entries
      ensures Valid() && (entries == old(entries) || fresh(entries))
      ensures Contents() == Added(old(Contents()), e)
      ensures var q := old(Contents());
              && ((exists i :: 0 <= i < |q| && q[i].jobId == e.jobId) ==> Contents() == q)
              && ((forall i | 0 <= i < |q| :: q[i].jobId != e.jobId) ==> StandsIn(q, e, Contents()))
    {
      ghost var q := Contents();
      AddedKeepsOrder(q, e);
      AddedExactlyWhen(q, e);
      var found := Find(e.jobId);
      if found {
        return;
      }
      MakeRoom(e);
      entries[count] := e;
      count := count + 1;
      Sink(q, e);
    }

    /** The stable sort of a sorted slice with one new last entry. */
    method Sink(ghost q: seq<Entry>, e: Entry)
      requires 0 < count <= entries.Length && Sorted(q) && |q| == count - 1
      requires entries[count - 1] == e && forall j | 0 <= j < count - 1 :: entries[j] == q[j]
      modifies entries
      ensures entries[..count] == InsertAt(q, Place(q, e.score), e)
    {
      var i: nat := count - 1;
      while i > 0 && entries[i].score < entries[i - 1].score
        invariant i < count
        invariant forall j | 0 <= j < i :: entries[j] == q[j]
        invariant entries[i] == e
        invariant forall j | i < j < count :: entries[j] == q[j - 1]
        invariant i < |q| ==> q[i].score > e.score
      {
        entries[i], entries[i - 1] := entries[i - 1], entries[i];
        i := i - 1;
      }
      InsertedIs(q, i, e, entries[..count]);
    }

    /** Hand out what is due; the rest moves to the front of the same array. */
    method Reserve(limit: int, now: int) returns (reserved: seq<string>)
      requires Valid()
      modifies this, entries
      ensures Valid() && entries == old(entries)
      ensures reserved == Ids(old(Contents())[..Takes(old(Contents()), limit, now)])
      ensures Contents() == old(Contents())[Takes(old(Contents()), limit, now)..]
      ensures var q := old(Contents());
              && |reserved| <= |q| && (|reserved| > 0 ==> |reserved| <= limit) && Contents() == q[|reserved|..]
              && (forall i | 0 <= i < |reserved| :: reserved[i] == q[i].jobId && q[i].score <= now)
              && (forall e <- Contents() :: |reserved| >= limit || e.score > now)
    {
      ghost var q := Contents();
      TakesAllThatIsDue(q, limit, now);
      if limit <= 0 {
        return [];
      }
      var remaining;
      reserved, remaining := Compact(limit, now);
      count := remaining;
      RestKeepsOrder(q, Takes(q, limit, now));
    }

    method Compact(limit: int, now: int) returns (reserved: seq<string>, remaining: nat)
      requires Valid() && limit > 0
      modifies entries
      ensures var q := old(Contents());
              var k := Takes(q, limit, now);
              remaining == count - k && entries[..remaining] == q[k..] && reserved == Ids(q[..k])
    {
      ghost var q := Contents();
      ghost var k := Takes(q, limit, now);
      TakesAllThatIsDue(q, limit, now);
      reserved, remaining := [], 0;
      for i := 0 to count
        invariant |reserved| == (if i < k then i else k) && |reserved| + remaining == i
        invariant reserved == Ids(q[..|reserved|])
        invariant forall j | 0 <= j < remaining :: entries[j] == q[k + j]
        invariant forall j | i <= j < count :: entries[j] == q[j]
      {
        var entry := entries[i];
        if |reserved| < limit && entry.score <= now {
          OneMoreId(q, i);
          reserved := reserved + [entry.jobId];
          continue;
        }
        entries[remaining] := entry;
        remaining := remaining + 1;
      }
      assert entries[..remaining] == q[k..];
    }
  }

  // ---- Over all runs -------------------------------------------------------------------------

  datatype Delivery = Delivery(entry: Entry, at: int)

  /** What was accepted, what was delivered and when, and what is queued. */
  datatype State = State(accepted: seq<Entry>, delivered: seq<Delivery>, pending: seq<Entry>)

  datatype Operation = Add(entry: Entry) | Reserve(limit: int, now: int)

  function Apply(s: State, op: Operation): State {
    match op
    case Add(e) =>
      if Holds(s.pending, e.jobId) then s
      else s.(accepted := s.accepted + [e], pending := Added(s.pending, e))
    case Reserve(limit, now) =>
      var k := Takes(s.pending, limit, now);
      s.(delivered := s.delivered + Deliveries(s.pending[..k], now), pending := s.pending[k..])
  }

  function Deliveries(q: seq<Entry>, now: int): seq<Delivery> {
    seq(|q|, i requires 0 <= i < |q| => Delivery(q[i], now))
  }

  function ApplyAll(s: State, ops: seq<Operation>): State {
    if ops == [] then s else Apply(ApplyAll(s, ops[..|ops| - 1]), ops[|ops| - 1])
  }

  function Entries(delivered: seq<Delivery>): seq<Entry> {
    seq(|delivered|, i requires 0 <= i < |delivered| => delivered[i].entry)
  }

  /** Everything accepted, in the order in which it is or will be handed out. */
  function Line(s: State): seq<Entry> {
    Entries(s.delivered) + s.pending
  }

  ghost predicate Sound(s: State) {
    && Sorted(s.pending) && UniqueIds(s.pending)
    && multiset(Line(s)) == multiset(s.accepted)
    && forall d <- s.delivered :: d.entry.score <= d.at
  }

  lemma AddingIsInserting(s: State, e: Entry)
    requires !Holds(s.pending, e.jobId)
    ensures var n := |s.delivered| + Place(s.pending, e.score);
            Line(Apply(s, Add(e))) == InsertAt(Line(s), n, e)
  {
  }

  lemma ReservingLeavesTheLine(s: State, limit: int, now: int)
    ensures Line(Apply(s, Reserve(limit, now))) == Line(s)
  {
  }

  lemma InsertCounts(line: seq<Entry>, n: nat, e: Entry, longer: seq<Entry>)
    requires n <= |line| && longer == InsertAt(line, n, e)
    ensures multiset(longer) == multiset(line) + multiset([e])
  {
    assert line == line[..n] + line[n..];
  }

  lemma AddKeepsCounts(s: State, e: Entry)
    requires multiset(Line(s)) == multiset(s.accepted) && !Holds(s.pending, e.jobId)
    ensures multiset(Line(Apply(s, Add(e)))) == multiset(s.accepted + [e])
  {
    AddingIsInserting(s, e);
    InsertCounts(Line(s), |s.delivered| + Place(s.pending, e.score), e, Line(Apply(s, Add(e))));
  }

  lemma AddKeepsSound(s: State, e: Entry)
    requires Sound(s) && !Holds(s.pending, e.jobId)
    ensures Sound(Apply(s, Add(e)))
  {
    AddedKeepsOrder(s.pending, e);
    AddKeepsCounts(s, e);
  }

  lemma ReserveKeepsSound(s: State, limit: int, now: int)
    requires Sound(s)
    ensures Sound(Apply(s, Reserve(limit, now)))
  {
    TakesAllThatIsDue(s.pending, limit, now);
    RestKeepsOrder(s.pending, Takes(s.pending, limit, now));
    ReservingLeavesTheLine(s, limit, now);
  }

  lemma ApplyKeepsSound(s: State, op: Operation)
    requires Sound(s)
    ensures Sound(Apply(s, op))
  {
    match op
    case Add(e) =>
      if !Holds(s.pending, e.jobId) {
        AddKeepsSound(s, e);
      }
    case Reserve(limit, now) => ReserveKeepsSound(s, limit, now);
  }

  /**
   * Each accepted job is delivered or queued, once for each time it was accepted, and never
   * delivered before its time.
   */
  lemma {:induction false} RunKeepsSound(ops: seq<Operation>)
    ensures Sound(ApplyAll(State([], [], []), ops))
    decreases |ops|
  {
    if ops != [] {
      RunKeepsSound(ops[..|ops| - 1]);
      ApplyKeepsSound(ApplyAll(State([], [], []), ops[..|ops| - 1]), ops[|ops| - 1]);
    }
  }

  lemma OneStepKeepsOrder(s: State, op: Operation, i: nat, j: nat) returns (p: nat, q: nat)
    requires i < j < |Line(s)|
    ensures i <= p < q < |Line(Apply(s, op))|
    ensures Line(Apply(s, op))[p] == Line(s)[i] && Line(Apply(s, op))[q] == Line(s)[j]
    ensures i < |s.delivered| ==> p == i
  {
    p, q := i, j;
    match op
    case Add(e) =>
      if !Holds(s.pending, e.jobId) {
        AddingIsInserting(s, e);
        var n := |s.delivered| + Place(s.pending, e.score);
        p, q := if i < n then i else i + 1, if j < n then j else j + 1;
      }
    case Reserve(limit, now) =>
      ReservingLeavesTheLine(s, limit, now);
  }

  /** Nobody overtakes: of two jobs in the line the earlier one stays earlier, delivered or not. */
  lemma {:induction false} NobodyOvertakes(s: State, ops: seq<Operation>, i: nat, j: nat) returns (p: nat, q: nat)
    requires i < j < |Line(s)|
    ensures i <= p < q < |Line(ApplyAll(s, ops))|
    ensures Line(ApplyAll(s, ops))[p] == Line(s)[i] && Line(ApplyAll(s, ops))[q] == Line(s)[j]
    ensures i < |s.delivered| ==> p == i
    decreases |ops|
  {
    if ops == [] {
      p, q := i, j;
    } else {
      p, q := NobodyOvertakes(s, ops[..|ops| - 1], i, j);
      DeliveredStay(s, ops[..|ops| - 1]);
      p, q := OneStepKeepsOrder(ApplyAll(s, ops[..|ops| - 1]), ops[|ops| - 1], p, q);
    }
  }

  lemma {:induction false} DeliveredStay(s: State, ops: seq<Operation>)
    ensures s.delivered <= ApplyAll(s, ops).delivered
    decreases |ops|
  {
    if ops != [] {
      DeliveredStay(s, ops[..|ops| - 1]);
    }
  }
}
