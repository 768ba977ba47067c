/**
  The Redis limiter: four sorted sets a request, purged lazily and dropped by key expiry, whose
  scripts refine the map of live leases.
*/
module RedisLimiter {
  import opened Options
  import opened LeaseMap
  import opened SortedSets

  /** What one scope should hold. */
  function Entries(l: Leases, scope: Scope): map<Token, int> {
    map t | t in l.held && scope in l.held[t].scopes :: l.held[t].expiry
  }

  /** A purge leaves exactly the live leases to be seen. */
  lemma PurgeLeavesLive(l: Leases, scope: Scope, c: Cell)
    requires Fits(c, l.now, 0, Entries(l, scope))
    ensures var purged := ZRemRangeByScore(c, l.now, l.now);
            Fits(purged, l.now, 0, Entries(l, scope)) && Visible(purged, l.now).Keys == LiveAt(l, scope)
  {
    PurgeFits(c, l.now, 0, Entries(l, scope));
  }

  lemma OneMoreScope(scopes: seq<Scope>, i: nat)
    requires i < |scopes|
    ensures forall scope :: scope in scopes[..i + 1] <==> scope in scopes[..i] || scope == scopes[i]
  {
    assert scopes[..i + 1] == scopes[..i] + [scopes[i]];
  }

  // ---- The scripts ---------------------------------------------------------------------------

  class Limiter {
    const limits: Limits
    const ttl: nat
    var cells: map<Scope, Cell>
    var now: int
    ghost var leases: Leases

    function At(scope: Scope): Cell
      reads this
    {
      if scope in cells then cells[scope] else EMPTY
    }

    ghost predicate Valid()
      reads this
    {
      && ttl > 0 && leases.limits == limits && leases.ttl == ttl && leases.now == now && Sound(leases)
      && Represents(leases)
    }

    constructor (limits: Limits, ttl: nat, now: int)
      requires ttl > 0
      ensures Valid() && leases == Start(limits, ttl, now)
    {
      this.limits, this.ttl, this.now, cells := limits, ttl, now, map[];
      leases := Start(limits, ttl, now);
      new;
      assert forall scope :: LiveAt(leases, scope) == {};
    }

    method Wait(elapsed: nat)
      requires Valid()
      modifies this
      ensures Valid() && leases == Apply(old(leases), Advance(elapsed))
    {
      forall scope ensures Fits(At(scope), now + elapsed, 0, Entries(leases, scope)) {
        TimePassesFits(At(scope), now, now + elapsed, 0, Entries(leases, scope));
      }
      ApplyKeepsSound(leases, Advance(elapsed));
      now := now + elapsed;
      leases := leases.(now := now);
      assert forall scope :: Entries(leases, scope) == old(Entries(leases, scope));
    }

    /** One round of the first loop of both scripts: purge a key, so that what can be seen of it is live. */
    method Purge(scope: Scope)
      requires Valid()
      modifies this`cells
      ensures Valid() && Visible(At(scope), now).Keys == LiveAt(leases, scope)
    {
      PurgeLeavesLive(leases, scope, At(scope));
      var purged := ZRemRangeByScore(At(scope), now, now);
      cells := cells[scope := purged];
      assert At(scope) == purged;
      forall other ensures Fits(At(other), now, 0, Entries(leases, other)) {
        assert other != scope ==> At(other) == old(At(other));
      }
    }

    method IsFull(scope: Scope) returns (full: bool)
      requires Valid()
      modifies this`cells
      ensures Valid() && (full <==> |LiveAt(leases, scope)| >= limits.Of(scope))
    {
      Purge(scope);
      var card := |Visible(At(scope), now)|;
      assert card == |Visible(At(scope), now).Keys|;
      full := card >= limits.Of(scope);
    }

    /** ZADD and PEXPIRE on one key. */
    method PutOne(scope: Scope, token: Token, ghost entries: map<Token, int>)
      requires ttl > 0 && Fits(At(scope), now, 0, entries) && forall t <- entries :: entries[t] <= now + ttl
      modifies this`cells
      ensures Fits(At(scope), now, 0, entries[token := now + ttl])
      ensures forall other | other != scope :: At(other) == old(At(other))
    {
      var expires := now + ttl;
      var c := At(scope);
      AddFits(c, now, 0, entries, token, expires, expires - now);
      cells := cells[scope := PExpire(ZAdd(c, now, expires, token), now, expires - now)];
    }

    ghost predicate Represents(l: Leases)
      reads this
    {
      forall scope :: Fits(At(scope), now, 0, Entries(l, scope))
    }

    /** The second loop of both scripts: the token with its new score, in every scope. */
    method Put(scopes: seq<Scope>, token: Token, ghost from: Leases, ghost target: Leases)
      requires ttl > 0 && Represents(from) && Distinct(scopes) && forall t <- from.held :: from.held[t].expiry <= now + ttl
      requires forall scope :: Entries(target, scope)
                 == if scope in scopes then Entries(from, scope)[token := now + ttl] else Entries(from, scope)
      modifies this`cells
      ensures Represents(target)
    {
      var i := 0;
      while i < |scopes|
        invariant 0 <= i <= |scopes|
        invariant forall scope :: Fits(At(scope), now, 0, Entries(if scope in scopes[..i] then target else from, scope))
      {
        assert scopes[i] !in scopes[..i];
        PutOne(scopes[i], token, Entries(from, scopes[i]));
        OneMoreScope(scopes, i);
        i := i + 1;
      }
      assert scopes[..i] == scopes;
      forall scope ensures Fits(At(scope), now, 0, Entries(target, scope)) {
        assert scope !in scopes ==> Entries(target, scope) == Entries(from, scope);
      }
    }

    /** The second loop for an operation on the leases that does just this to their entries. */
    method PutFor(scopes: seq<Scope>, token: Token, ghost op: Op)
      requires Valid() && Distinct(scopes) && !op.Advance?
      requires forall scope :: Entries(Apply(leases, op), scope)
                 == if scope in scopes then Entries(leases, scope)[token := now + ttl] else Entries(leases, scope)
      modifies this`cells, this`leases
      ensures Valid() && leases == Apply(old(leases), op)
    {
      ghost var target := Apply(leases, op);
      ApplyKeepsSound(leases, op);
      Put(scopes, token, leases, target);
      leases := target;
    }

    /** The first loop of the acquire script: it stops at the first full key, with the later ones unpurged. */
    method Look(scopes: seq<Scope>) returns (room: bool)
      requires Valid()
      modifies this`cells
      ensures Valid() && (room <==> HasRoom(leases, scopes))
    {
      for i := 0 to |scopes|
        invariant Valid() && HasRoom(leases, scopes[..i])
      {
        var full := IsFull(scopes[i]);
        if full {
          assert scopes[i] in scopes;
          return false;
        }
        assert scopes[..i + 1] == scopes[..i] + [scopes[i]];
      }
      assert scopes[..|scopes|] == scopes;
      return true;
    }

    /** The acquire script: all scopes have room, or nothing changes but what had run out. */
    method AcquireScript(scopes: seq<Scope>, token: Token) returns (granted: bool)
      requires Valid() && token !in leases.issued && Distinct(scopes)
      modifies this`cells, this`leases
      ensures Valid() && leases == Apply(old(leases), Acquire(token, scopes))
      ensures granted <==> HasRoom(old(leases), scopes)
    {
      granted := Look(scopes);
      if granted {
        AcquiredEntries(leases, token, scopes);
        PutFor(scopes, token, Acquire(token, scopes));
      }
    }

    /** The first loop of the renew script: it stops at the first scope that has lost the token. */
    method StillHolds(scopes: seq<Scope>, token: Token) returns (holds: bool)
      requires Valid() && token in leases.issued && leases.issued[token] == scopes && scopes != []
      modifies this`cells
      ensures Valid() && (holds <==> Live(leases, token))
    {
      for i := 0 to |scopes|
        invariant Valid() && (i > 0 ==> Live(leases, token))
      {
        Purge(scopes[i]);
        if token !in Visible(At(scopes[i]), now) {
          assert scopes[i] in scopes && token !in LiveAt(leases, scopes[i]);
          return false;
        }
        assert token in LiveAt(leases, scopes[i]);
      }
      return true;
    }

    /** The renew script: a token that lost any scope is not put back into the others. */
    method RenewScript(scopes: seq<Scope>, token: Token) returns (renewed: bool)
      requires Valid() && token in leases.issued && leases.issued[token] == scopes && scopes != []
      modifies this`cells, this`leases
      ensures Valid() && leases == Apply(old(leases), Renew(token))
      ensures renewed <==> Live(old(leases), token)
    {
      renewed := StillHolds(scopes, token);
      if renewed {
        RenewedEntries(leases, token);
        PutFor(scopes, token, Renew(token));
      }
    }

    method ReleaseScript(scopes: seq<Scope>, token: Token)
      requires Valid() && token in leases.issued && leases.issued[token] == scopes
      modifies this`cells, this`leases
      ensures Valid() && leases == Apply(old(leases), Release(token))
    {
      ghost var target := Apply(leases, Release(token));
      ApplyKeepsSound(leases, Release(token));
      ReleasedEntries(leases, token);
      for i := 0 to |scopes|
        invariant leases == old(leases)
        invariant forall scope :: Fits(At(scope), now, 0, Entries(if scope in scopes[..i] then target else leases, scope))
      {
        assert scopes[i] !in scopes[..i];
        RemoveFits(At(scopes[i]), now, 0, Entries(leases, scopes[i]), token);
        cells := cells[scopes[i] := ZRem(At(scopes[i]), now, token)];
        assert scopes[..i + 1] == scopes[..i] + [scopes[i]];
      }
      assert scopes[..|scopes|] == scopes;
      forall scope ensures Fits(At(scope), now, 0, Entries(target, scope)) {
        assert scope !in scopes ==> Entries(target, scope) == Entries(leases, scope);
      }
      leases := target;
    }
  }

  lemma AcquiredEntries(l: Leases, token: Token, scopes: seq<Scope>)
    requires Sound(l) && token !in l.issued && Distinct(scopes) && HasRoom(l, scopes)
    ensures forall scope :: Entries(Apply(l, Acquire(token, scopes)), scope)
                            == if scope in scopes then Entries(l, scope)[token := l.now + l.ttl] else Entries(l, scope)
  {
  }

  lemma RenewedEntries(l: Leases, token: Token)
    requires Sound(l) && Live(l, token)
    ensures forall scope :: Entries(Apply(l, Renew(token)), scope)
                            == if scope in l.issued[token] then Entries(l, scope)[token := l.now + l.ttl] else Entries(l, scope)
  {
  }

  lemma ReleasedEntries(l: Leases, token: Token)
    requires Sound(l) && token in l.issued
    ensures forall scope :: Entries(Apply(l, Release(token)), scope)
                            == if scope in l.issued[token] then Entries(l, scope) - {token} else Entries(l, scope)
  {
  }

  // ---- The permit a caller holds -------------------------------------------------------------

  function ScopesOf(org: nat, agent: nat, session: nat): (scopes: seq<Scope>)
    ensures Distinct(scopes) && |scopes| == 4
  {
    [Upstream, Org(org), Agent(agent), Session(session)]
  }

  /** A granted token with its scopes. Only the first release reaches the sorted sets. */
  class Permit {
    const limiter: Limiter
    const token: Token
    const scopes: seq<Scope>
    var released: bool

    ghost predicate Valid()
      reads this, limiter
    {
      && limiter.Valid() && token in limiter.leases.issued && limiter.leases.issued[token] == scopes && scopes != []
      && (released ==> token !in limiter.leases.held)
    }

    constructor (limiter: Limiter, token: Token, scopes: seq<Scope>)
      requires limiter.Valid() && token in limiter.leases.issued && limiter.leases.issued[token] == scopes && scopes != []
      ensures Valid() && this.limiter == limiter && this.token == token && !released
    {
      this.limiter, this.token, this.scopes, released := limiter, token, scopes, false;
    }

    /** A tick of the renewal loop. It may still fire after the release, and never learns that the token is gone. */
    method Tick()
      requires Valid()
      modifies limiter`cells, limiter`leases
      ensures Valid() && limiter.leases == Apply(old(limiter.leases), Renew(token))
      ensures released ==> limiter.leases == old(limiter.leases)
    {
      var _ := limiter.RenewScript(scopes, token);
    }

    method Release()
      requires Valid()
      modifies this, limiter`cells, limiter`leases
      ensures Valid() && released && limiter.leases == Apply(old(limiter.leases), LeaseMap.Release(token))
      ensures !Live(limiter.leases, token) && forall other | other != token :: Live(limiter.leases, other) <==> Live(old(limiter.leases), other)
    {
      if !released {
        released := true;
        limiter.ReleaseScript(scopes, token);
      }
    }
  }

  method AcquirePermit(limiter: Limiter, org: nat, agent: nat, session: nat, token: Token) returns (permit: Option<Permit>)
    requires limiter.Valid() && token !in limiter.leases.issued
    modifies limiter`cells, limiter`leases
    ensures limiter.Valid() && limiter.leases == Apply(old(limiter.leases), Acquire(token, ScopesOf(org, agent, session)))
    ensures var l, limits := old(limiter.leases), limiter.limits;
            permit.Some? <==>
              && |LiveAt(l, Upstream)| < limits.upstream && |LiveAt(l, Org(org))| < limits.org
              && |LiveAt(l, Agent(agent))| < limits.agent && |LiveAt(l, Session(session))| < limits.session
    ensures permit.None? ==> limiter.leases == old(limiter.leases)
    ensures permit.Some? ==>
              forall scope :: token in LiveAt(limiter.leases, scope) <==> scope in {Upstream, Org(org), Agent(agent), Session(session)}
    ensures permit.Some? ==> fresh(permit.value) && permit.value.limiter == limiter && permit.value.Valid()
  {
    var granted := limiter.AcquireScript(ScopesOf(org, agent, session), token);
    if granted {
      var p := new Permit(limiter, token, ScopesOf(org, agent, session));
      return Some(p);
    }
    return None;
  }
}
