/**
 * Which replies may be shown: the sources a turn's tools declared, the policy a reply must meet,
 * and the one rewrite before the fixed fallback.
 */
module ResponseAudit {
  import opened Options
  import opened Text

  const MAX_TEXT: nat := 4000
  const MAX_SOURCES: nat := 8

  datatype Kind = Knowledge | Web | OtherKind(name: string)
  datatype Scope = PublicNetwork | EnterpriseNetwork | OtherScope(name: string)
  datatype NextAction = NoAction | OfferLead | AskResolution | OtherAction(name: string)

  datatype Source = Source(kind: Kind, title: string, url: string, scope: Scope, reference: string, unconfirmed: bool)

  datatype Reply = Reply(text: string, sources: seq<Source>, nextAction: NextAction, refusal: bool, fallback: bool)

  /** The flags of a decoded reply; anything else was refused when decoding. */
  datatype Flags = NoFlags | NullFlags | FlagMap(flags: map<string, bool>) | EmptyArray | BadFlags

  /** A decoded reply; sources may be missing. */
  datatype Wire = Wire(text: string, sources: Option<seq<Source>>, nextAction: NextAction, flags: Flags)

  /** Text patterns, the URL form and strict decoding, all left open. */
  datatype Checks = Checks(claimsPrice: string -> bool, claimsDone: string -> bool, discloses: string -> bool,
                           isWebUrl: string -> bool, decode: string -> Option<Wire>)

  type Audit = map<string, Source>

  // ---- Sources declared by tools -------------------------------------------------------------

  datatype Tool = KnowledgeSearch | WebSearch | WebExtract | OtherTool(name: string)

  /** A transcript message; the payload is what its content decodes to, if it declares sources. */
  datatype Entry = Entry(fromTool: bool, tool: Tool, payload: Option<seq<Source>>)

  predicate Trustworthy(entry: Entry) {
    entry.fromTool && !entry.tool.OtherTool? && entry.payload.Some?
  }

  predicate WellFormed(source: Source) {
    && (source.kind == Knowledge || source.kind == Web) && Trim(source.title) != ""
    && (source.kind == Web ==> !source.scope.OtherScope? && source.url != ""
                                && (source.scope == EnterpriseNetwork ==> source.unconfirmed))
  }

  /** Everything that may be cited, in the order it was declared. */
  function Declared(transcript: seq<Entry>): seq<Source> {
    if transcript == [] then []
    else
      var last := transcript[|transcript| - 1];
      Declared(transcript[..|transcript| - 1]) + if Trustworthy(last) then Citable(last.payload.value) else []
  }

  function Citable(sources: seq<Source>): seq<Source> {
    if sources == [] then []
    else
      var last := sources[|sources| - 1];
      Citable(sources[..|sources| - 1]) + if WellFormed(last) && last.reference != "" then [last] else []
  }

  /** Of several declarations under one reference the first stays. */
  ghost predicate IsAudit(audit: Audit, declared: seq<Source>) {
    && (forall i | 0 <= i < |declared| :: declared[i].reference in audit)
    && (forall reference <- audit :: exists i :: IsFirst(declared, i, reference) && audit[reference] == declared[i])
  }

  ghost predicate IsFirst(declared: seq<Source>, i: int, reference: string) {
    0 <= i < |declared| && declared[i].reference == reference
    && forall j | 0 <= j < i :: declared[j].reference != reference
  }

  lemma DeclareOne(audit: Audit, declared: seq<Source>, source: Source) returns (longer: Audit)
    requires IsAudit(audit, declared)
    ensures longer == if source.reference in audit then audit else audit[source.reference := source]
    ensures IsAudit(longer, declared + [source])
  {
    longer := if source.reference in audit then audit else audit[source.reference := source];
    var more := declared + [source];
    forall reference <- longer ensures exists i :: IsFirst(more, i, reference) && longer[reference] == more[i] {
      if reference in audit {
        var i :| IsFirst(declared, i, reference) && audit[reference] == declared[i];
        assert IsFirst(more, i, reference) && longer[reference] == more[i];
      } else {
        assert IsFirst(more, |declared|, reference);
      }
    }
  }

  method ExtractAudit(transcript: seq<Entry>) returns (audit: Audit)
    ensures IsAudit(audit, Declared(transcript))
  {
    audit := map[];
    for i := 0 to |transcript|
      invariant IsAudit(audit, Declared(transcript[..i]))
    {
      assert transcript[..i + 1][..i] == transcript[..i];
      if Trustworthy(transcript[i]) {
        audit := AddCitable(audit, Declared(transcript[..i]), transcript[i].payload.value);
      } else {
        assert Declared(transcript[..i + 1]) == Declared(transcript[..i]);
      }
    }
    assert transcript[..|transcript|] == transcript;
  }

  lemma CitableOneMore(declared: seq<Source>, sources: seq<Source>, i: nat)
    requires i < |sources|
    ensures var soFar := declared + Citable(sources[..i]);
            declared + Citable(sources[..i + 1])
              == if WellFormed(sources[i]) && sources[i].reference != "" then soFar + [sources[i]] else soFar
  {
    assert sources[..i + 1][..i] == sources[..i];
  }

  method AddCitable(before: Audit, ghost declared: seq<Source>, sources: seq<Source>) returns (audit: Audit)
    requires IsAudit(before, declared)
    ensures IsAudit(audit, declared + Citable(sources))
  {
    audit := before;
    assert declared + Citable([]) == declared;
    for i := 0 to |sources|
      invariant IsAudit(audit, declared + Citable(sources[..i]))
    {
      var source := sources[i];
      CitableOneMore(declared, sources, i);
      if !WellFormed(source) || source.reference == "" {
        continue;
      }
      ghost var longer := DeclareOne(audit, declared + Citable(sources[..i]), source);
      if source.reference !in audit {
        audit := audit[source.reference := source];
      }
    }
    assert sources[..|sources|] == sources;
  }

  // ---- The policy ----------------------------------------------------------------------------

  /** The reply repeats, in every field, what the audit holds under its reference. */
  predicate SourceAllowed(checks: Checks, source: Source, audit: Audit) {
    && (source.kind == Knowledge || source.kind == Web) && Trim(source.reference) != ""
    && source.reference in audit && audit[source.reference] == source
    && (source.url != "" ==> checks.isWebUrl(source.url))
    && (source.kind == Web ==> !source.scope.OtherScope?)
    && (source.scope == EnterpriseNetwork ==> source.unconfirmed)
  }

  method CheckSource(checks: Checks, source: Source, audit: Audit) returns (ok: bool)
    ensures ok == SourceAllowed(checks, source, audit)
  {
    if (source.kind != Knowledge && source.kind != Web) || Trim(source.reference) == "" {
      return false;
    }
    if source.reference !in audit {
      return false;
    }
    var trusted := audit[source.reference];
    if trusted.reference != source.reference || source.kind != trusted.kind || source.url != trusted.url
       || source.scope != trusted.scope || source.title != trusted.title {
      return false;
    }
    if source.url != "" && !checks.isWebUrl(source.url) {
      return false;
    }
    if source.kind == Web && source.scope != PublicNetwork && source.scope != EnterpriseNetwork {
      return false;
    }
    if source.scope == EnterpriseNetwork && !source.unconfirmed {
      return false;
    }
    ok := source.unconfirmed == trusted.unconfirmed;
  }

  predicate HasKnowledge(sources: seq<Source>) {
    exists source <- sources :: source.kind == Knowledge
  }

  predicate HasEnterpriseNetwork(sources: seq<Source>) {
    exists source <- sources :: source.kind == Web && source.scope == EnterpriseNetwork
  }

  method FindKnowledge(sources: seq<Source>) returns (found: bool)
    ensures found == HasKnowledge(sources)
  {
    for i := 0 to |sources|
      invariant forall j | 0 <= j < i :: sources[j].kind != Knowledge
    {
      if sources[i].kind == Knowledge {
        return true;
      }
    }
    found := false;
  }

  method FindEnterpriseNetwork(sources: seq<Source>) returns (found: bool)
    ensures found == HasEnterpriseNetwork(sources)
  {
    for i := 0 to |sources|
      invariant forall j | 0 <= j < i :: !(sources[j].kind == Web && sources[j].scope == EnterpriseNetwork)
    {
      if sources[i].kind == Web && sources[i].scope == EnterpriseNetwork {
        return true;
      }
    }
    found := false;
  }

  /** What every shown reply keeps to. */
  predicate Complies(checks: Checks, reply: Reply, audit: Audit) {
    && reply.text != "" && Trimmed(reply.text) && |reply.text| <= MAX_TEXT && !reply.nextAction.OtherAction?
    && |reply.sources| <= MAX_SOURCES && (forall source <- reply.sources :: SourceAllowed(checks, source, audit))
    && !(HasKnowledge(reply.sources) && HasEnterpriseNetwork(reply.sources))
    && (HasEnterpriseNetwork(reply.sources) ==> checks.discloses(reply.text))
    && (checks.claimsPrice(reply.text) ==> HasKnowledge(reply.sources))
    && !checks.claimsDone(reply.text)
  }

  method ValidateEnvelope(checks: Checks, offered: Reply, audit: Audit) returns (checked: Option<Reply>)
    ensures forall reply :: checked == Some(reply) <==> reply == offered.(text := Trim(offered.text)) && Complies(checks, reply, audit)
  {
    var reply := offered.(text := Trim(offered.text));
    TrimIsPart(offered.text);
    if reply.text == "" || |reply.text| > MAX_TEXT {
      return None;
    }
    if reply.nextAction != NoAction && reply.nextAction != OfferLead && reply.nextAction != AskResolution {
      return None;
    }
    if |reply.sources| > MAX_SOURCES {
      return None;
    }
    for i := 0 to |reply.sources|
      invariant forall j | 0 <= j < i :: SourceAllowed(checks, reply.sources[j], audit)
    {
      var ok := CheckSource(checks, reply.sources[i], audit);
      if !ok {
        assert reply.sources[i] in reply.sources;
        return None;
      }
    }
    var knowledge := FindKnowledge(reply.sources);
    var enterprise := FindEnterpriseNetwork(reply.sources);
    if knowledge && enterprise {
      return None;
    }
    if enterprise && !checks.discloses(reply.text) {
      return None;
    }
    if checks.claimsPrice(reply.text) && !knowledge {
      return None;
    }
    if checks.claimsDone(reply.text) {
      return None;
    }
    checked := Some(reply);
  }

  // ---- From the raw answer -------------------------------------------------------------------

  /** The flags by name; an empty array stands for no flags. */
  function ReadFlags(flags: Flags): Option<map<string, bool>> {
    match flags
    case FlagMap(named) => if forall name <- named :: name == "refusal" || name == "fallback" then Some(named) else None
    case EmptyArray => Some(map[])
    case _ => None
  }

  function Flag(flags: map<string, bool>, name: string): bool {
    name in flags && flags[name]
  }

  /** What a raw answer says, if it is one strict document. */
  function Understood(checks: Checks, raw: string): Option<Reply> {
    var wire :- checks.decode(raw);
    var sources :- wire.sources;
    var flags :- ReadFlags(wire.flags);
    Some(Reply(wire.text, sources, wire.nextAction, Flag(flags, "refusal"), Flag(flags, "fallback")))
  }

  /** The flags are an object of no other names than these two, or an empty array. */
  predicate KnownFlags(flags: Flags) {
    flags == EmptyArray || (flags.FlagMap? && flags.flags.Keys <= {"refusal", "fallback"})
  }

  predicate IsSet(flags: Flags, name: string) {
    flags.FlagMap? && name in flags.flags && flags.flags[name] == true
  }

  /** The reply repeats the document: its text without outer spaces, its sources, its action, and a flag for each flag it sets. */
  predicate Repeats(reply: Reply, wire: Wire) {
    && reply.text == Trim(wire.text) && wire.sources == Some(reply.sources) && reply.nextAction == wire.nextAction
    && KnownFlags(wire.flags)
    && (reply.refusal <==> IsSet(wire.flags, "refusal")) && (reply.fallback <==> IsSet(wire.flags, "fallback"))
  }

  /** The raw answer is one strict document that this reply repeats. */
  predicate Says(checks: Checks, raw: string, reply: Reply) {
    checks.decode(raw).Some? && Repeats(reply, checks.decode(raw).value)
  }

  lemma UnderstoodSays(checks: Checks, raw: string)
    ensures forall reply :: Says(checks, raw, reply) <==>
              var said := Understood(checks, raw);
              said.Some? && reply == said.value.(text := Trim(said.value.text))
  {
  }

  method ParseAndValidate(checks: Checks, raw: string, audit: Audit) returns (checked: Option<Reply>)
    ensures forall reply :: checked == Some(reply) <==> Says(checks, raw, reply) && Complies(checks, reply, audit)
  {
    UnderstoodSays(checks, raw);
    var understood := Understood(checks, raw);
    if understood.None? {
      return None;
    }
    checked := ValidateEnvelope(checks, understood.value, audit);
  }

  // ---- One rewrite, then the fallback --------------------------------------------------------

  /** An answer of the runtime with the transcript of its own turn; raw is empty for trusted adapters. */
  datatype Answer = Answer(reply: Reply, raw: string, transcript: seq<Entry>)

  const FALLBACK := Reply("抱歉，我暂时无法依据可确认的信息回答这个问题。请联系企业客服进一步确认。", [], NoAction, false, true)

  /** The reply that an answer amounts to, when it complies with the policy. */
  ghost predicate ShownFor(checks: Checks, answer: Answer, shown: Reply) {
    exists audit ::
      && IsAudit(audit, Declared(answer.transcript)) && Complies(checks, shown, audit)
      && (if answer.raw == "" then shown == answer.reply.(text := Trim(answer.reply.text))
          else Says(checks, answer.raw, shown))
  }

  /** The second answer is what the runtime would say when asked once more; none is an error. */
  method ValidateOrFallback(checks: Checks, first: Answer, second: Option<Answer>) returns (shown: Reply, asked: bool)
    ensures asked ==> first.raw != "" && forall reply :: !ShownFor(checks, first, reply)
    ensures !asked && shown != FALLBACK ==> ShownFor(checks, first, shown)
    ensures asked && shown != FALLBACK ==> second.Some? && second.value.raw != "" && ShownFor(checks, second.value, shown)
    ensures forall reply :: ShownFor(checks, first, reply) ==> shown == reply && !asked
    ensures forall reply :: asked && second.Some? && second.value.raw != "" && ShownFor(checks, second.value, reply)
              ==> shown == reply
  {
    AuditsAreUnique(first.transcript);
    var audit := ExtractAudit(first.transcript);
    asked := false;
    if first.raw == "" {
      var checked := ValidateEnvelope(checks, first.reply, audit);
      shown := if checked.Some? then checked.value else FALLBACK;
      return;
    }
    var checked := ParseAndValidate(checks, first.raw, audit);
    if checked.Some? {
      return checked.value, false;
    }
    asked := true;
    shown := FALLBACK;
    if second.Some? && second.value.raw != "" {
      AuditsAreUnique(second.value.transcript);
      var again := ExtractAudit(second.value.transcript);
      var rechecked := ParseAndValidate(checks, second.value.raw, again);
      if rechecked.Some? {
        shown := rechecked.value;
      }
    }
  }

  lemma AuditsAreUnique(transcript: seq<Entry>)
    ensures forall a, b :: IsAudit(a, Declared(transcript)) && IsAudit(b, Declared(transcript)) ==> a == b
  {
    forall a, b | IsAudit(a, Declared(transcript)) && IsAudit(b, Declared(transcript)) ensures a == b {
      AuditIsUnique(a, b, Declared(transcript));
    }
  }

  lemma AuditIsUnique(a: Audit, b: Audit, declared: seq<Source>)
    requires IsAudit(a, declared) && IsAudit(b, declared)
    ensures a == b
  {
    forall reference ensures reference in a ==> reference in b && a[reference] == b[reference] {
      if reference in a {
        var i :| IsFirst(declared, i, reference) && a[reference] == declared[i];
        assert declared[i].reference in b;
        var j :| IsFirst(declared, j, reference) && b[reference] == declared[j];
        assert i == j;
      }
    }
    forall reference ensures reference in b ==> reference in a {
      if reference in b {
        var i :| IsFirst(declared, i, reference) && b[reference] == declared[i];
        assert declared[i].reference in a;
      }
    }
  }

  // ---- Main results --------------------------------------------------------------------------

  /** A source that may be cited: it has a title, and one from the web also its address and one of the two networks. */
  predicate Citation(source: Source) {
    && Trim(source.title) != ""
    && match source.kind
       case Knowledge => true
       case Web => source.url != "" && (source.scope == PublicNetwork || (source.scope == EnterpriseNetwork && source.unconfirmed))
       case OtherKind(_) => false
  }

  /** One of the three tools of this transcript declared exactly this source. */
  ghost predicate DeclaredByTool(source: Source, transcript: seq<Entry>) {
    Citation(source) && exists entry <- transcript :: DeclaredIn(source, entry)
  }

  predicate DeclaredIn(source: Source, entry: Entry) {
    entry.fromTool && entry.tool in {KnowledgeSearch, WebSearch, WebExtract} && entry.payload.Some? && source in entry.payload.value
  }

  lemma {:induction false} CitableArePayload(sources: seq<Source>)
    ensures forall source :: source in Citable(sources) <==> source in sources && Citation(source) && source.reference != ""
    decreases |sources|
  {
    if sources != [] {
      CitableArePayload(sources[..|sources| - 1]);
    }
  }

  /** What may be cited is exactly what one of the three tools declared, with a reference. */
  lemma {:induction false} DeclaredExactlyByTools(transcript: seq<Entry>)
    ensures forall source :: source in Declared(transcript) <==> DeclaredByTool(source, transcript) && source.reference != ""
    decreases |transcript|
  {
    if transcript != [] {
      var n := |transcript| - 1;
      var last := transcript[n];
      DeclaredExactlyByTools(transcript[..n]);
      if Trustworthy(last) {
        CitableArePayload(last.payload.value);
      }
      forall source
        ensures source in Declared(transcript) <==> DeclaredByTool(source, transcript) && source.reference != ""
      {
        assert transcript == transcript[..n] + [last];
        assert (exists entry <- transcript :: DeclaredIn(source, entry))
           <==> (exists entry <- transcript[..n] :: DeclaredIn(source, entry)) || DeclaredIn(source, last);
      }
    }
  }

  /** Every source a reply shows was declared, field by field, by a trusted tool in the same turn. */
  lemma ShownSourcesAreDeclared(checks: Checks, answer: Answer, shown: Reply)
    requires ShownFor(checks, answer, shown)
    ensures forall source <- shown.sources :: DeclaredByTool(source, answer.transcript)
  {
    var declared := Declared(answer.transcript);
    var audit :| IsAudit(audit, declared) && Complies(checks, shown, audit);
    DeclaredExactlyByTools(answer.transcript);
    forall source <- shown.sources ensures DeclaredByTool(source, answer.transcript) {
      assert SourceAllowed(checks, source, audit);
      var i :| IsFirst(declared, i, source.reference) && audit[source.reference] == declared[i];
      assert declared[i] in declared;
    }
  }

  /** Under one reference only the first declaration can be shown; later ones are ignored. */
  lemma FirstDeclarationIsShown(checks: Checks, answer: Answer, shown: Reply, i: nat, reference: string)
    requires ShownFor(checks, answer, shown) && IsFirst(Declared(answer.transcript), i, reference)
    ensures forall source <- shown.sources :: source.reference == reference ==> source == Declared(answer.transcript)[i]
  {
    var declared := Declared(answer.transcript);
    var audit :| IsAudit(audit, declared) && Complies(checks, shown, audit);
    forall source <- shown.sources | source.reference == reference ensures source == declared[i] {
      assert SourceAllowed(checks, source, audit);
      var k :| IsFirst(declared, k, reference) && audit[reference] == declared[k];
      assert k == i;
    }
  }

  /** What no shown reply ever does, whatever the model wrote. */
  lemma ShownRepliesAreSafe(checks: Checks, answer: Answer, shown: Reply)
    requires ShownFor(checks, answer, shown)
    ensures 1 <= |shown.text| <= 4000 && |shown.sources| <= 8 && !checks.claimsDone(shown.text)
    ensures shown.nextAction in {NoAction, OfferLead, AskResolution}
    ensures forall s <- shown.sources :: s.url != "" ==> checks.isWebUrl(s.url)
    ensures forall s <- shown.sources | s.scope == EnterpriseNetwork ::
              s.unconfirmed && (s.kind == Web ==> checks.discloses(shown.text) && forall t <- shown.sources :: t.kind == Web)
    ensures checks.claimsPrice(shown.text) ==> exists s <- shown.sources :: s.kind == Knowledge
  {
    var audit :| IsAudit(audit, Declared(answer.transcript)) && Complies(checks, shown, audit);
    forall s, t | s in shown.sources && t in shown.sources && s.kind == Web && s.scope == EnterpriseNetwork ensures t.kind == Web {
      assert SourceAllowed(checks, t, audit);
    }
  }

  /** A reply without sources passes if it is short enough and claims nothing. */
  lemma PlainRepliesPass(checks: Checks, text: string, action: NextAction, refusal: bool, fallback: bool, audit: Audit)
    requires Trim(text) == text && 1 <= |text| <= 4000 && action in {NoAction, OfferLead, AskResolution}
    requires !checks.claimsPrice(text) && !checks.claimsDone(text)
    ensures Complies(checks, Reply(text, [], action, refusal, fallback), audit)
  {
    TrimIsPart(text);
  }

  /** A reply passes with up to eight sources of one kind, cited as they were declared, if it says what they are. */
  lemma CitingRepliesPass(checks: Checks, reply: Reply, kind: Kind, audit: Audit)
    requires Trim(reply.text) == reply.text && 1 <= |reply.text| <= 4000 && reply.nextAction in {NoAction, OfferLead, AskResolution}
    requires 1 <= |reply.sources| <= 8 && !checks.claimsDone(reply.text)
    requires forall s <- reply.sources ::
               && s.kind == kind && Citation(s) && Trim(s.reference) != "" && s.reference in audit && audit[s.reference] == s
               && (s.url != "" ==> checks.isWebUrl(s.url)) && (s.scope == EnterpriseNetwork ==> s.unconfirmed)
    requires kind == Web ==> checks.discloses(reply.text) && !checks.claimsPrice(reply.text)
    ensures Complies(checks, reply, audit)
  {
    TrimIsPart(reply.text);
    assert reply.sources[0] in reply.sources;
  }

  // ---- The action the server allows ----------------------------------------------------------

  function Constrain(reply: Reply, allowOffer: bool): Reply {
    if allowOffer then reply.(nextAction := OfferLead)
    else if reply.nextAction == OfferLead then reply.(nextAction := NoAction)
    else reply
  }

  /** The form is offered exactly when it was decided to; nothing else about a shown reply changes. */
  lemma OfferedExactlyWhenAllowed(checks: Checks, reply: Reply, audit: Audit, allowOffer: bool)
    ensures Constrain(reply, allowOffer).nextAction == OfferLead <==> allowOffer
    ensures Constrain(reply, allowOffer).(nextAction := reply.nextAction) == reply
    ensures !allowOffer ==> Constrain(reply, allowOffer).nextAction == if reply.nextAction == OfferLead then NoAction else reply.nextAction
    ensures Complies(checks, reply, audit) ==> Complies(checks, Constrain(reply, allowOffer), audit)
  {
  }
}
