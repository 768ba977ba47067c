/**
  What the hierarchical limiter is for, without Redis: a map of leases on a monotone clock,
  each holding one place in every one of its scopes until it is released or runs out.
*/
module LeaseMap {
  import opened Options

  type Token = nat

  datatype Scope = Upstream | Org(id: nat) | Agent(id: nat) | Session(id: nat)

  datatype Limits = Limits(upstream: int, org: int, agent: int, session: int) {
    function Of(scope: Scope): int {
      match scope
      case Upstream => upstream
      case Org(_) => org
      case Agent(_) => agent
      case Session(_) => session
    }
  }

  datatype Lease = Lease(scopes: seq<Scope>, expiry: int)

  /** issued remembers the scopes of every token that was ever granted. */
  datatype Leases = Leases(limits: Limits, ttl: nat, held: map<Token, Lease>, issued: map<Token, seq<Scope>>, now: int)

  function Start(limits: Limits, ttl: nat, now: int): Leases {
    Leases(limits, ttl, map[], map[], now)
  }

  predicate Live(l: Leases, token: Token) {
    token in l.held && l.held[token].expiry > l.now
  }

  function LiveAt(l: Leases, scope: Scope): set<Token> {
    set t <- l.held | l.held[t].expiry > l.now && scope in l.held[t].scopes
  }

  predicate HasRoom(l: Leases, scopes: seq<Scope>) {
    forall scope <- scopes :: |LiveAt(l, scope)| < l.limits.Of(scope)
  }

  predicate Distinct(scopes: seq<Scope>) {
    forall i, j | 0 <= i < j < |scopes| :: scopes[i] != scopes[j]
  }

  datatype Op =
    | Acquire(token: Token, scopes: seq<Scope>)
    | Renew(token: Token)
    | Release(token: Token)
    | Advance(elapsed: nat)

  function Apply(l: Leases, op: Op): Leases {
    match op
    case Acquire(token, scopes) =>
      if token !in l.issued && Distinct(scopes) && HasRoom(l, scopes)
      then l.(held := l.held[token := Lease(scopes, l.now + l.ttl)], issued := l.issued[token := scopes])
      else l
    case Renew(token) =>
      if Live(l, token) then l.(held := l.held[token := l.held[token].(expiry := l.now + l.ttl)]) else l
    case Release(token) => l.(held := l.held - {token})
    case Advance(elapsed) => l.(now := l.now + elapsed)
  }

  function Run(l: Leases, ops: seq<Op>): Leases {
    if ops == [] then l else Apply(Run(l, ops[..|ops| - 1]), ops[|ops| - 1])
  }

  // ---- Limits --------------------------------------------------------------------------------

  ghost predicate WithinLimits(l: Leases) {
    forall scope :: |LiveAt(l, scope)| <= if l.limits.Of(scope) < 0 then 0 else l.limits.Of(scope)
  }

  ghost predicate Sound(l: Leases) {
    && WithinLimits(l)
    && (forall t <- l.held :: t in l.issued && l.held[t].scopes == l.issued[t] && l.held[t].expiry <= l.now + l.ttl)
    && (forall t <- l.issued :: Distinct(l.issued[t]))
  }

  lemma FewerLive(l: Leases, l': Leases)
    requires WithinLimits(l) && l'.limits == l.limits
    requires forall scope :: LiveAt(l', scope) <= LiveAt(l, scope)
    ensures WithinLimits(l')
  {
    forall scope ensures |LiveAt(l', scope)| <= if l'.limits.Of(scope) < 0 then 0 else l'.limits.Of(scope) {
      SubsetIsNotLarger(LiveAt(l', scope), LiveAt(l, scope));
    }
  }

  lemma ApplyKeepsSound(l: Leases, op: Op)
    requires Sound(l)
    ensures Sound(Apply(l, op))
  {
    var l' := Apply(l, op);
    match op
    case Acquire(token, scopes) =>
      if l' != l {
        forall scope ensures |LiveAt(l', scope)| <= if l'.limits.Of(scope) < 0 then 0 else l'.limits.Of(scope) {
          SubsetIsNotLarger(LiveAt(l', scope), LiveAt(l, scope) + if scope in scopes then {token} else {});
        }
      }
    case _ => FewerLive(l, l');
  }

  lemma {:induction false} RunKeepsSound(l: Leases, ops: seq<Op>)
    requires Sound(l)
    ensures Sound(Run(l, ops))
    decreases |ops|
  {
    if ops != [] {
      RunKeepsSound(l, ops[..|ops| - 1]);
      ApplyKeepsSound(Run(l, ops[..|ops| - 1]), ops[|ops| - 1]);
    }
  }

  /** So many leases and no more, none at all for a limit below zero. */
  predicate Within(live: set<Token>, limit: int) {
    live == {} || |live| <= limit
  }

  /** In no history of acquisitions, renewals, releases and expiries does any scope exceed the limit of its kind. */
  lemma LimitsNeverExceeded(limits: Limits, ttl: nat, now: int, ops: seq<Op>)
    ensures var l := Run(Start(limits, ttl, now), ops);
            && Within(LiveAt(l, Upstream), limits.upstream)
            && (forall org :: Within(LiveAt(l, Org(org)), limits.org))
            && (forall agent :: Within(LiveAt(l, Agent(agent)), limits.agent))
            && (forall session :: Within(LiveAt(l, Session(session)), limits.session))
  {
    assert forall s :: LiveAt(Start(limits, ttl, now), s) == {};
    RunKeepsSound(Start(limits, ttl, now), ops);
    LimitsAreFixed(Start(limits, ttl, now), ops);
  }

  lemma {:induction false} LimitsAreFixed(l: Leases, ops: seq<Op>)
    ensures Run(l, ops).limits == l.limits && Run(l, ops).ttl == l.ttl
    decreases |ops|
  {
    if ops != [] {
      LimitsAreFixed(l, ops[..|ops| - 1]);
    }
  }

  // ---- Dead tokens ---------------------------------------------------------------------------

  /** A token that was granted and is live no more, released or run out, is never live again. */
  lemma {:induction false} DeadTokensStayDead(l: Leases, ops: seq<Op>, token: Token)
    requires token in l.issued && !Live(l, token)
    ensures token in Run(l, ops).issued && !Live(Run(l, ops), token)
    decreases |ops|
  {
    if ops != [] {
      DeadTokensStayDead(l, ops[..|ops| - 1], token);
    }
  }

  /** A granted token, and a live one that is renewed, is live from then on for exactly the time to live, if nothing else is done to it. */
  lemma LastsFromTheLastRenewal(l: Leases, op: Op, ops: seq<Op>, token: Token)
    requires l.ttl > 0 && (forall t <- l.held :: t in l.issued)
    requires (op == Renew(token) && Live(l, token)) || (op.Acquire? && op.token == token && token in Apply(l, op).issued && token !in l.issued)
    requires forall other <- ops :: other != Renew(token) && other != Release(token)
    ensures Live(Run(Apply(l, op), ops), token) <==> Run(Apply(l, op), ops).now < l.now + l.ttl
  {
    LeaseLastsItsTtl(Apply(l, op), ops, token);
  }

  /** Without a renewal or release a lease lasts until its expiry. */
  lemma {:induction false} LeaseLastsItsTtl(l: Leases, ops: seq<Op>, token: Token)
    requires Live(l, token) && token in l.issued
    requires forall op <- ops :: op != Renew(token) && op != Release(token)
    ensures Live(Run(l, ops), token) <==> Run(l, ops).now < l.held[token].expiry
    ensures token in Run(l, ops).held && Run(l, ops).held[token] == l.held[token] && token in Run(l, ops).issued
    decreases |ops|
  {
    if ops != [] {
      var rest := ops[..|ops| - 1];
      assert forall op <- rest :: op in ops;
      LeaseLastsItsTtl(l, rest, token);
      assert ops[|ops| - 1] in ops;
    }
  }
}
