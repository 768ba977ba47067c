/** When a reply asks the visitor whether the matter is resolved: a count over the session's messages. */
module ResolutionPrompt {
  import opened Options

  datatype Message = Message(id: string, fromVisitor: bool, refusal: bool, replyTo: string)

  datatype Action = NoAction | OfferLead | AskResolution

  /** What the stored intent says: whether the visitor was invited, and by the reply to which message. */
  datatype Intent = Intent(invited: bool, analyzed: Option<string>)

  predicate IsReply(m: Message) {
    !m.fromVisitor && !m.refusal
  }

  predicate Started(messages: seq<Message>, start: string) {
    start == "" || exists m <- messages :: m.id == start
  }

  /** The messages of the current phase: those after the one that started it, or all. */
  function Phase(messages: seq<Message>, start: string): seq<Message> {
    if messages == [] then []
    else
      var before := messages[..|messages| - 1];
      if Started(before, start) then Phase(before, start) + [messages[|messages| - 1]] else []
  }

  function Replies(messages: seq<Message>): nat {
    if messages == [] then 0
    else Replies(messages[..|messages| - 1]) + if IsReply(messages[|messages| - 1]) then 1 else 0
  }

  /** Message i is the second reply of the phase and the visitor has not written since. */
  ghost predicate AsksAt(phase: seq<Message>, i: nat) {
    && i < |phase| && IsReply(phase[i]) && Replies(phase[..i]) == 1
    && forall j | i < j < |phase| :: !phase[j].fromVisitor
  }

  ghost predicate Asks(phase: seq<Message>, id: string) {
    exists i: nat :: AsksAt(phase, i) && phase[i].id == id
  }

  ghost predicate Distinct(messages: seq<Message>) {
    forall i, j | 0 <= i < j < |messages| :: messages[i].id != messages[j].id
  }

  // ---- The loop ------------------------------------------------------------------------------

  lemma {:induction false} PhaseIsSuffix(messages: seq<Message>, start: string)
    ensures |Phase(messages, start)| <= |messages|
    ensures Phase(messages, start) == messages[|messages| - |Phase(messages, start)|..]
    ensures !Started(messages, start) ==> Phase(messages, start) == []
    decreases |messages|
  {
    if messages != [] {
      var before := messages[..|messages| - 1];
      PhaseIsSuffix(before, start);
      assert forall m <- before :: m in messages;
    }
  }

  ghost predicate VisitorAfter(phase: seq<Message>, i: nat) {
    exists j | i < j < |phase| :: phase[j].fromVisitor
  }

  /** The target is the reply at this index, with so many replies up to it; place 0 if it is none of them. */
  ghost predicate Seen(phase: seq<Message>, id: string, place: nat, visitorAfter: bool, at: nat) {
    if place == 0 then !visitorAfter && forall i | 0 <= i < |phase| :: !(IsReply(phase[i]) && phase[i].id == id)
    else
      && at < |phase| && IsReply(phase[at]) && phase[at].id == id && Replies(phase[..at]) + 1 == place
      && visitorAfter == VisitorAfter(phase, at)
  }

  lemma SeeOther(phase: seq<Message>, id: string, place: nat, visitorAfter: bool, at: nat, m: Message)
    requires Seen(phase, id, place, visitorAfter, at) && !(IsReply(m) && m.id == id)
    ensures Seen(phase + [m], id, place, visitorAfter || (place != 0 && m.fromVisitor), at)
  {
    var longer := phase + [m];
    if place != 0 {
      assert longer[..at] == phase[..at];
      assert forall j | 0 <= j < |phase| :: longer[j] == phase[j];
      assert longer[|phase|] == m;
      assert VisitorAfter(longer, at) <==> VisitorAfter(phase, at) || m.fromVisitor by {
        if VisitorAfter(phase, at) {
          var j :| at < j < |phase| && phase[j].fromVisitor;
          assert longer[j].fromVisitor;
        }
      }
    }
  }

  lemma SeeFirst(phase: seq<Message>, id: string, place: nat, visitorAfter: bool, at: nat, m: Message)
    requires Seen(phase, id, place, visitorAfter, at) && Distinct(phase + [m]) && m.id == id
    ensures place == 0 && !visitorAfter
  {
    assert (phase + [m])[|phase|] == m;
    assert at < |phase| ==> (phase + [m])[at] == phase[at];
  }

  lemma SeeTarget(phase: seq<Message>, id: string, m: Message)
    requires IsReply(m) && m.id == id
    ensures Seen(phase + [m], id, Replies(phase) + 1, false, |phase|)
  {
    assert (phase + [m])[..|phase|] == phase;
  }

  lemma PhaseOneMore(messages: seq<Message>, k: nat, start: string)
    requires k < |messages| && Distinct(messages)
    ensures Started(messages[..k + 1], start) == (Started(messages[..k], start) || messages[k].id == start)
    ensures Phase(messages[..k + 1], start)
         == if Started(messages[..k], start) then Phase(messages[..k], start) + [messages[k]] else []
    ensures !Started(messages[..k], start) ==> Phase(messages[..k], start) == []
    ensures Distinct(Phase(messages[..k], start) + [messages[k]])
  {
    assert messages[..k + 1][..k] == messages[..k];
    assert messages[..k + 1] == messages[..k] + [messages[k]];
    PhaseIsSuffix(messages[..k], start);
  }

  lemma ReplyOneMore(phase: seq<Message>, m: Message)
    ensures Replies(phase + [m]) == Replies(phase) + if IsReply(m) then 1 else 0
  {
    assert (phase + [m])[..|phase|] == phase;
  }

  /** What has been counted of a phase. */
  datatype Count = Count(replies: nat, place: nat, visitorAfter: bool)

  ghost predicate Counted(phase: seq<Message>, id: string, c: Count, at: nat) {
    c.replies == Replies(phase) && Seen(phase, id, c.place, c.visitorAfter, at)
  }

  method CountOne(ghost phase: seq<Message>, m: Message, id: string, before: Count, ghost wasAt: nat)
    returns (after: Count, ghost at: nat)
    requires Distinct(phase + [m]) && Counted(phase, id, before, wasAt)
    ensures Counted(phase + [m], id, after, at)
  {
    ReplyOneMore(phase, m);
    after, at := before, wasAt;
    if m.fromVisitor && after.place != 0 {
      after := after.(visitorAfter := true);
    }
    if m.fromVisitor || m.refusal {
      SeeOther(phase, id, before.place, before.visitorAfter, wasAt, m);
      return;
    }
    after := after.(replies := after.replies + 1);
    if m.id == id {
      SeeFirst(phase, id, before.place, before.visitorAfter, wasAt, m);
      SeeTarget(phase, id, m);
      after := after.(place := after.replies);
      at := |phase|;
    } else {
      SeeOther(phase, id, before.place, before.visitorAfter, wasAt, m);
    }
  }

  method CountReplies(messages: seq<Message>, start: string, id: string) returns (c: Count, ghost at: nat)
    requires Distinct(messages)
    ensures Counted(Phase(messages, start), id, c, at)
  {
    c, at := Count(0, 0, false), 0;
    var started := start == "";
    for k := 0 to |messages|
      invariant started == Started(messages[..k], start)
      invariant Counted(Phase(messages[..k], start), id, c, at)
    {
      PhaseOneMore(messages, k, start);
      if !started {
        started := messages[k].id == start;
        continue;
      }
      c, at := CountOne(Phase(messages[..k], start), messages[k], id, c, at);
    }
    assert messages[..|messages|] == messages;
  }

  predicate OffersForm(intent: Option<Intent>, target: Message) {
    intent.Some? && intent.value.invited && intent.value.analyzed == Some(target.replyTo)
  }

  /** Reads may fail: no intent, or no messages. */
  method NextActionOf(target: Message, intent: Option<Intent>, messages: Option<seq<Message>>, start: string)
    returns (action: Action)
    requires messages.Some? ==> Distinct(messages.value)
    ensures action == OfferLead
      <==> !target.refusal && intent.Some? && intent.value.invited && intent.value.analyzed == Some(target.replyTo)
    ensures action == AskResolution
      <==> !target.refusal && action != OfferLead && messages.Some? && IsSecondAndLast(messages.value, start, target.id)
  {
    if target.refusal {
      return NoAction;
    }
    if OffersForm(intent, target) {
      return OfferLead;
    }
    if messages.None? {
      return NoAction;
    }
    AsksExactlyWhen(messages.value, start, target.id);
    PhaseIsDistinct(messages.value, start);
    var c, at := CountReplies(messages.value, start, target.id);
    SeenTwice(Phase(messages.value, start), target.id, c.place, c.visitorAfter, at);
    action := if !c.visitorAfter && c.place == 2 then AskResolution else NoAction;
  }

  lemma SeenTwice(phase: seq<Message>, id: string, place: nat, visitorAfter: bool, at: nat)
    requires Seen(phase, id, place, visitorAfter, at) && Distinct(phase)
    ensures Asks(phase, id) <==> place == 2 && !visitorAfter
  {
    if place != 0 {
      assert AsksAt(phase, at) <==> place == 2 && !visitorAfter;
    }
  }

  // ---- What it means -------------------------------------------------------------------------

  lemma {:induction false} RepliesGrow(messages: seq<Message>, i: nat)
    requires i <= |messages|
    ensures Replies(messages[..i]) <= Replies(messages)
    decreases |messages| - i
  {
    if i == |messages| {
      assert messages[..i] == messages;
    } else {
      assert messages[..i + 1][..i] == messages[..i];
      RepliesGrow(messages, i + 1);
    }
  }

  lemma OneMoreReply(phase: seq<Message>, i: nat, j: nat)
    requires i < j <= |phase| && IsReply(phase[i])
    ensures Replies(phase[..j]) > Replies(phase[..i])
  {
    var part := phase[..j];
    assert part[..i + 1][..i] == phase[..i];
    RepliesGrow(part, i + 1);
  }

  // ---- By the places of the messages ---------------------------------------------------------

  /** The phase begins with the message at this place: the first, or the one after the message that started it. */
  predicate BeginsAt(messages: seq<Message>, start: string, s: nat) {
    if start == "" then s == 0 else 0 < s <= |messages| && messages[s - 1].id == start
  }

  /** From place s on, the messages at a and b are the first two of the assistant that are no refusals. */
  predicate FirstTwo(messages: seq<Message>, s: nat, a: nat, b: nat) {
    && s <= a < b < |messages|
    && (forall k | s <= k <= b :: !messages[k].fromVisitor && !messages[k].refusal <==> k == a || k == b)
  }

  /** The message is the second of the phase's replies, and the visitor wrote nothing after it. */
  ghost predicate IsSecondAndLast(messages: seq<Message>, start: string, id: string) {
    exists s: nat, a: nat, b: nat :: BeginsAt(messages, start, s) && IsSecondThere(messages, s, a, b, id)
  }

  predicate IsSecondThere(messages: seq<Message>, s: nat, a: nat, b: nat, id: string) {
    FirstTwo(messages, s, a, b) && messages[b].id == id && forall k | b < k < |messages| :: !messages[k].fromVisitor
  }

  lemma {:induction false} PhaseFrom(messages: seq<Message>, start: string, s: nat)
    requires Distinct(messages) && BeginsAt(messages, start, s)
    ensures s <= |messages| && Phase(messages, start) == messages[s..]
    decreases |messages|
  {
    if messages != [] {
      var n := |messages| - 1;
      if s <= n {
        PhaseFrom(messages[..n], start, s);
        assert start != "" ==> messages[..n][s - 1] in messages[..n];
        assert messages[s..] == messages[..n][s..] + [messages[n]];
      } else {
        assert forall m <- messages[..n] :: m.id != start;
      }
    }
  }

  lemma {:induction false} NoRepliesThere(messages: seq<Message>)
    ensures Replies(messages) == 0 <==> forall m <- messages :: !IsReply(m)
    decreases |messages|
  {
    if messages != [] {
      NoRepliesThere(messages[..|messages| - 1]);
      assert messages == messages[..|messages| - 1] + [messages[|messages| - 1]];
    }
  }

  /** Exactly one reply stands before a place. */
  lemma {:induction false} OneReplyThere(messages: seq<Message>)
    ensures Replies(messages) == 1 <==> exists a :: OnlyReplyAt(messages, a)
    decreases |messages|
  {
    if messages != [] {
      var n := |messages| - 1;
      OneReplyThere(messages[..n]);
      NoRepliesThere(messages[..n]);
      if IsReply(messages[n]) {
        if Replies(messages[..n]) == 0 {
          assert OnlyReplyAt(messages, n) by {
            forall k | 0 <= k < n ensures !IsReply(messages[k]) {
              assert messages[..n][k] in messages[..n];
            }
          }
        }
        forall a | OnlyReplyAt(messages, a) ensures Replies(messages[..n]) == 0 {
          assert a == n;
          assert forall m <- messages[..n] :: !IsReply(m);
        }
      } else {
        forall a ensures OnlyReplyAt(messages, a) <==> OnlyReplyAt(messages[..n], a) {
        }
      }
    }
  }

  predicate OnlyReplyAt(messages: seq<Message>, a: int) {
    0 <= a < |messages| && forall k | 0 <= k < |messages| :: IsReply(messages[k]) <==> k == a
  }

  lemma AskingIsSecond(phase: seq<Message>, i: nat)
    requires i < |phase| && IsReply(phase[i])
    ensures Replies(phase[..i]) == 1 <==> exists a: nat :: FirstTwo(phase, 0, a, i)
  {
    OneReplyThere(phase[..i]);
    forall a: nat ensures OnlyReplyAt(phase[..i], a) <==> FirstTwo(phase, 0, a, i) {
      if a < i {
        assert forall k | 0 <= k < i :: phase[..i][k] == phase[k];
        assert IsReply(phase[a]) <==> IsReply(phase[..i][a]);
      }
    }
  }

  lemma AsksInPhase(phase: seq<Message>, id: string)
    ensures Asks(phase, id) <==> exists a: nat, b: nat :: IsSecondThere(phase, 0, a, b, id)
  {
    if Asks(phase, id) {
      var i: nat :| AsksAt(phase, i) && phase[i].id == id;
      AskingIsSecond(phase, i);
      var a: nat :| FirstTwo(phase, 0, a, i);
      assert IsSecondThere(phase, 0, a, i, id);
    }
    if a: nat, b: nat :| IsSecondThere(phase, 0, a, b, id) {
      AskingIsSecond(phase, b);
      assert AsksAt(phase, b);
    }
  }

  lemma SecondFrom(messages: seq<Message>, s: nat, a: nat, b: nat, id: string)
    requires s <= |messages|
    ensures IsSecondThere(messages[s..], 0, a, b, id) <==> IsSecondThere(messages, s, s + a, s + b, id)
  {
    var phase := messages[s..];
    assert forall k | s <= k < |messages| :: messages[k] == phase[k - s];
    assert forall k | 0 <= k < |phase| :: phase[k] == messages[s + k];
  }

  lemma AskingIsThere(messages: seq<Message>, start: string, id: string, s: nat, a: nat, b: nat)
    requires Distinct(messages) && BeginsAt(messages, start, s) && IsSecondThere(Phase(messages, start), 0, a, b, id)
    ensures IsSecondAndLast(messages, start, id)
  {
    PhaseFrom(messages, start, s);
    SecondFrom(messages, s, a, b, id);
  }

  lemma ThereIsAsking(messages: seq<Message>, start: string, id: string, s: nat, a: nat, b: nat)
    requires Distinct(messages) && BeginsAt(messages, start, s) && IsSecondThere(messages, s, a, b, id)
    ensures Asks(Phase(messages, start), id)
  {
    PhaseFrom(messages, start, s);
    SecondFrom(messages, s, a - s, b - s, id);
    AsksInPhase(Phase(messages, start), id);
  }

  lemma PhaseIsDistinct(messages: seq<Message>, start: string)
    requires Distinct(messages)
    ensures Distinct(Phase(messages, start))
  {
    PhaseIsSuffix(messages, start);
  }

  /** A message asks exactly when it is the second reply of the phase and the visitor has not written since. */
  lemma AsksExactlyWhen(messages: seq<Message>, start: string, id: string)
    requires Distinct(messages)
    ensures Asks(Phase(messages, start), id) <==> IsSecondAndLast(messages, start, id)
  {
    AsksInPhase(Phase(messages, start), id);
    if a: nat, b: nat :| IsSecondThere(Phase(messages, start), 0, a, b, id) {
      var s := PhaseBegins(messages, start);
      AskingIsThere(messages, start, id, s, a, b);
    }
    if s: nat, a: nat, b: nat :| BeginsAt(messages, start, s) && IsSecondThere(messages, s, a, b, id) {
      ThereIsAsking(messages, start, id, s, a, b);
    }
  }

  /** A phase that has messages begins somewhere. */
  lemma {:induction false} PhaseBegins(messages: seq<Message>, start: string) returns (s: nat)
    requires Phase(messages, start) != []
    ensures BeginsAt(messages, start, s)
  {
    if start == "" {
      s := 0;
    } else {
      PhaseIsSuffix(messages, start);
      var m :| m in messages && m.id == start;
      var k :| 0 <= k < |messages| && messages[k] == m;
      s := k + 1;
    }
  }

  /** At most one message asks. */
  lemma OneMessageAsks(phase: seq<Message>, a: string, b: string)
    requires Asks(phase, a) && Asks(phase, b)
    ensures a == b
  {
    var i: nat :| AsksAt(phase, i) && phase[i].id == a;
    var j: nat :| AsksAt(phase, j) && phase[j].id == b;
    if i < j {
      OneMoreReply(phase, i, j);
    } else if j < i {
      OneMoreReply(phase, j, i);
    }
  }

  lemma {:induction false} PhaseGoesOn(messages: seq<Message>, more: seq<Message>, start: string)
    requires Started(messages, start)
    ensures Phase(messages + more, start) == Phase(messages, start) + more
    decreases |more|
  {
    if more == [] {
      assert messages + more == messages;
    } else {
      var n := |more| - 1;
      assert (messages + more)[..|messages| + n] == messages + more[..n];
      PhaseGoesOn(messages, more[..n], start);
      assert Started(messages + more[..n], start) by {
        if start != "" {
          var m :| m in messages && m.id == start;
          assert m in messages + more[..n];
        }
      }
      assert more == more[..n] + [more[n]];
    }
  }

  /** Once the visitor writes again, no earlier message of the phase asks, whatever follows. */
  lemma VisitorWithdrawsForGood(messages: seq<Message>, start: string, visitor: Message, more: seq<Message>, id: string)
    requires Distinct(messages + ([visitor] + more)) && Started(messages, start) && visitor.fromVisitor
    requires exists m <- messages :: m.id == id
    ensures !Asks(Phase(messages + ([visitor] + more), start), id)
  {
    var all := messages + ([visitor] + more);
    var phase := Phase(messages, start);
    PhaseGoesOn(messages, [visitor] + more, start);
    PhaseIsSuffix(messages, start);
    var longer := phase + ([visitor] + more);
    var m :| m in messages && m.id == id;
    var k :| 0 <= k < |messages| && messages[k] == m;
    forall i: nat | AsksAt(longer, i) ensures longer[i].id != id {
      assert longer[|phase|] == visitor;
      assert i >= |phase|;
      assert longer[i] == all[|messages| - |phase| + i] && all[k] == m;
    }
  }
}
