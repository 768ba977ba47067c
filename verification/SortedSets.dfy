/** Redis sorted sets under one key each: members with scores, purged by score, dropped at a key deadline. */
module SortedSets {
  import opened Options

  type Member = nat

  /** A key's members and scores, and when the key itself is dropped; a missing key is EMPTY. */
  datatype Cell = Cell(members: map<Member, int>, deadline: Option<int>)

  const EMPTY := Cell(map[], None)

  /** A key is gone once the clock is past its deadline. */
  function Visible(c: Cell, now: int): map<Member, int> {
    if c.deadline.Some? && now > c.deadline.value then map[] else c.members
  }

  /** What a write leaves: an expired key starts over, and an empty sorted set is no key. */
  function Written(c: Cell, now: int, members: map<Member, int>): Cell {
    if members == map[] then EMPTY
    else Cell(members, if Visible(c, now) == map[] then None else c.deadline)
  }

  function ZRemRangeByScore(c: Cell, now: int, max: int): Cell {
    Written(c, now, map t | t in Visible(c, now) && Visible(c, now)[t] > max :: Visible(c, now)[t])
  }

  function ZAdd(c: Cell, now: int, score: int, member: Member): Cell {
    Written(c, now, Visible(c, now)[member := score])
  }

  function ZRem(c: Cell, now: int, member: Member): Cell {
    Written(c, now, Visible(c, now) - {member})
  }

  function PExpire(c: Cell, now: int, ms: int): Cell {
    if ms <= 0 || Visible(c, now) == map[] then EMPTY else c.(deadline := Some(now + ms))
  }

  // ---- A key against the entries it should hold ----------------------------------------------

  /** An entry counts while its score is less than slack behind the clock. */
  predicate Counts(score: int, now: int, slack: int) {
    score + slack > now
  }

  /**
    Nothing but true entries is stored, every entry that counts can be seen, and the key outlives
    the time its members count. Entries that no longer count may linger or be gone.
  */
  ghost predicate Fits(c: Cell, now: int, slack: int, entries: map<Member, int>) {
    && (forall t <- c.members :: t in entries && c.members[t] == entries[t])
    && (forall t <- entries | Counts(entries[t], now, slack) :: t in Visible(c, now))
    && (c.members != map[] ==> c.deadline.Some?)
    && (forall t <- c.members :: c.deadline.Some? && c.members[t] + slack <= c.deadline.value)
  }

  lemma TimePassesFits(c: Cell, now: int, later: int, slack: int, entries: map<Member, int>)
    requires Fits(c, now, slack, entries) && now <= later
    ensures Fits(c, later, slack, entries)
  {
  }

  /** After a purge exactly the entries that count can be seen. */
  lemma PurgeFits(c: Cell, now: int, slack: int, entries: map<Member, int>)
    requires Fits(c, now, slack, entries)
    ensures var c' := ZRemRangeByScore(c, now, now - slack);
            && Fits(c', now, slack, entries)
            && Visible(c', now).Keys == set t <- entries | Counts(entries[t], now, slack)
  {
    var c' := ZRemRangeByScore(c, now, now - slack);
    assert forall t <- entries | Counts(entries[t], now, slack) :: t in c'.members;
    assert forall t <- c'.members :: t in c.members;
  }

  /** Adding a member and extending the key so that it outlives everything in it. */
  lemma AddFits(c: Cell, now: int, slack: int, entries: map<Member, int>, member: Member, score: int, ms: int)
    requires Fits(c, now, slack, entries) && ms > 0 && score + slack <= now + ms
    requires forall t <- entries :: entries[t] + slack <= now + ms
    ensures Fits(PExpire(ZAdd(c, now, score, member), now, ms), now, slack, entries[member := score])
  {
    assert member in ZAdd(c, now, score, member).members;
  }

  lemma ExtendFits(c: Cell, now: int, slack: int, entries: map<Member, int>, ms: int)
    requires Fits(c, now, slack, entries) && ms > 0
    requires forall t <- entries :: entries[t] + slack <= now + ms
    ensures Fits(PExpire(c, now, ms), now, slack, entries)
  {
  }

  lemma RemoveFits(c: Cell, now: int, slack: int, entries: map<Member, int>, member: Member)
    requires Fits(c, now, slack, entries)
    ensures Fits(ZRem(c, now, member), now, slack, entries - {member})
  {
    var c' := ZRem(c, now, member);
    assert forall t <- c'.members :: t in c.members;
  }
}
