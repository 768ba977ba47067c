/**
 * The intent profile of a session: what an analysis may claim, how it is merged with the stored
 * profile, and what every stored profile satisfies whatever the analyses said.
 */
module IntentProfile {
  import opened Options
  import opened Text
  import opened ConversationContext

  datatype Evidence = Evidence(messageId: string, text: string)

  /** An analysis as the model wrote it, a cleaned one, or a stored profile. */
  datatype Analysis = Analysis(level: string, fields: map<string, string>,
                               confidence: map<string, real>, evidence: map<string, Evidence>)

  /** Which fields may be stored, and the one that may not although it is on the list. */
  datatype Policy = Policy(allowlist: set<string>, contact: string) {
    predicate Allows(key: string) {
      key in allowlist && key != contact
    }
  }

  const POLICY := Policy({"budget", "timeline", "company", "industry", "role", "product_interest", "team_size", "contact"},
                         "contact")

  // ---- What a value may look like ------------------------------------------------------------

  function Digits(value: string): nat {
    if value == "" then 0
    else Digits(value[..|value| - 1]) + if '0' <= value[|value| - 1] <= '9' then 1 else 0
  }

  function DigitPlaces(value: string): set<nat> {
    set i: nat | i < |value| && '0' <= value[i] <= '9'
  }

  lemma {:induction false} DigitsAreCounted(value: string)
    ensures Digits(value) == |DigitPlaces(value)|
    decreases |value|
  {
    if value != "" {
      var n := |value| - 1;
      DigitsAreCounted(value[..n]);
      var before, after := DigitPlaces(value[..n]), DigitPlaces(value);
      assert after - {n} == before;
      if n in after {
        assert after == before + {n};
      }
    }
  }

  predicate LooksSensitive(value: string) {
    Digits(value) >= 8 || '@' in value
  }

  method CheckSensitive(value: string) returns (sensitive: bool)
    ensures sensitive == LooksSensitive(value)
    ensures sensitive <==> '@' in value || |DigitPlaces(value)| >= 8
  {
    var digits := 0;
    for i := 0 to |value|
      invariant digits == Digits(value[..i])
    {
      assert value[..i + 1][..i] == value[..i];
      if '0' <= value[i] <= '9' {
        digits := digits + 1;
      }
    }
    assert value[..|value|] == value;
    DigitsAreCounted(value);
    sensitive := digits >= 8 || '@' in value;
  }

  // ---- Reading an analysis -------------------------------------------------------------------

  predicate ValidLevel(level: string) {
    level == "low" || level == "medium" || level == "high"
  }

  /** The cited evidence, or an empty one. */
  function Cited(analysis: Analysis, key: string): Evidence {
    if key in analysis.evidence then analysis.evidence[key] else Evidence("", "")
  }

  function TrimmedCitation(analysis: Analysis, key: string): Evidence {
    Evidence(Cited(analysis, key).messageId, Trim(Cited(analysis, key).text))
  }

  predicate Backed(evidence: Evidence, messages: map<string, string>) {
    evidence.messageId in messages && Contains(messages[evidence.messageId], evidence.text)
  }

  predicate Accepted(policy: Policy, analysis: Analysis, messages: map<string, string>, key: string) {
    && key in analysis.fields && policy.Allows(key)
    && Trim(analysis.fields[key]) != "" && !LooksSensitive(Trim(analysis.fields[key]))
    && TrimmedCitation(analysis, key).text != "" && Backed(TrimmedCitation(analysis, key), messages)
  }

  predicate Confident(analysis: Analysis, key: string) {
    key in analysis.confidence && 0.0 <= analysis.confidence[key] <= 1.0
  }

  /** What is left of an analysis: the accepted fields with their evidence. */
  function Cleaned(policy: Policy, analysis: Analysis, messages: map<string, string>): Analysis {
    Analysis(analysis.level,
             map key | key in analysis.fields && Accepted(policy, analysis, messages, key) :: Trim(analysis.fields[key]),
             map key | key in analysis.fields && Accepted(policy, analysis, messages, key) && Confident(analysis, key)
               :: analysis.confidence[key],
             map key | key in analysis.fields && Accepted(policy, analysis, messages, key) :: TrimmedCitation(analysis, key))
  }

  method CheckField(policy: Policy, analysis: Analysis, messages: map<string, string>, key: string) returns (ok: bool)
    requires key in analysis.fields
    ensures ok == Accepted(policy, analysis, messages, key)
  {
    if key !in policy.allowlist {
      return false;
    }
    var value := Trim(analysis.fields[key]);
    var evidence := TrimmedCitation(analysis, key);
    if value == "" || evidence.text == "" || evidence.messageId !in messages
       || !Contains(messages[evidence.messageId], evidence.text) {
      return false;
    }
    var sensitive := CheckSensitive(value);
    ok := !(key == policy.contact || sensitive);
  }

  /** A loop that takes the keys of a map in any order adds its entries one by one. */
  lemma OneLeft<V>(base: map<string, V>, more: map<string, V>, left: set<string>, key: string)
    requires key in left
    ensures base + (more - (left - {key}))
         == if key in more then (base + (more - left))[key := more[key]] else base + (more - left)
  {
  }

  lemma NoneLeft<V>(base: map<string, V>, more: map<string, V>)
    ensures base + (more - {}) == base + more && map[] + more == more
  {
  }

  lemma AllLeft<V>(base: map<string, V>, more: map<string, V>, left: set<string>)
    requires more.Keys <= left
    ensures base + (more - left) == base
  {
  }

  /** What is left of an analysis after all fields but some have been looked at. */
  ghost predicate CleanedButFor(goal: Analysis, left: set<string>, clean: Analysis) {
    && clean.level == goal.level && clean.fields == map[] + (goal.fields - left)
    && clean.confidence == map[] + (goal.confidence - left) && clean.evidence == map[] + (goal.evidence - left)
  }

  function WithField(analysis: Analysis, key: string, clean: Analysis): Analysis
    requires key in analysis.fields
  {
    clean.(fields := clean.fields[key := Trim(analysis.fields[key])],
           evidence := clean.evidence[key := TrimmedCitation(analysis, key)],
           confidence := if Confident(analysis, key) then clean.confidence[key := analysis.confidence[key]] else clean.confidence)
  }

  lemma OneFieldCleaned(policy: Policy, analysis: Analysis, messages: map<string, string>, left: set<string>, key: string, clean: Analysis)
    requires key in left && key in analysis.fields && CleanedButFor(Cleaned(policy, analysis, messages), left, clean)
    ensures CleanedButFor(Cleaned(policy, analysis, messages), left - {key},
                          if Accepted(policy, analysis, messages, key) then WithField(analysis, key, clean) else clean)
  {
    var goal := Cleaned(policy, analysis, messages);
    OneLeft(map[], goal.fields, left, key);
    OneLeft(map[], goal.confidence, left, key);
    OneLeft(map[], goal.evidence, left, key);
  }

  method CleanFields(policy: Policy, analysis: Analysis, messages: map<string, string>) returns (clean: Analysis)
    ensures clean == Cleaned(policy, analysis, messages)
  {
    ghost var goal := Cleaned(policy, analysis, messages);
    clean := Analysis(analysis.level, map[], map[], map[]);
    var left := analysis.fields.Keys;
    while left != {}
      invariant left <= analysis.fields.Keys && CleanedButFor(goal, left, clean)
      decreases left
    {
      var key :| key in left;
      OneFieldCleaned(policy, analysis, messages, left, key, clean);
      var ok := CheckField(policy, analysis, messages, key);
      if ok {
        clean := clean.(fields := clean.fields[key := Trim(analysis.fields[key])],
                        evidence := clean.evidence[key := TrimmedCitation(analysis, key)]);
        if Confident(analysis, key) {
          clean := clean.(confidence := clean.confidence[key := analysis.confidence[key]]);
        }
      }
      left := left - {key};
    }
    NoneLeft(map[], goal.fields);
    NoneLeft(map[], goal.confidence);
    NoneLeft(map[], goal.evidence);
  }

  /** When a field of an analysis is accepted. */
  lemma AcceptedExactlyWhen(policy: Policy, analysis: Analysis, messages: map<string, string>, key: string)
    ensures var evidence := Cited(analysis, key);
            Accepted(policy, analysis, messages, key) <==>
              && key in analysis.fields && key in analysis.evidence && key in policy.allowlist && key != policy.contact
              && !Blank(analysis.fields[key]) && !Blank(evidence.text)
              && evidence.messageId in messages && Contains(messages[evidence.messageId], Trim(evidence.text))
              && '@' !in Trim(analysis.fields[key]) && |DigitPlaces(Trim(analysis.fields[key]))| < 8
  {
    TrimIsPart(Cited(analysis, key).text);
    if key in analysis.fields {
      TrimIsPart(analysis.fields[key]);
      DigitsAreCounted(Trim(analysis.fields[key]));
    }
  }

  /** What is kept of an analysis: the accepted fields, trimmed, with their trimmed evidence, and sensible confidences of those. */
  lemma CleanedKeepsTheAccepted(policy: Policy, analysis: Analysis, messages: map<string, string>, key: string)
    ensures var clean := Cleaned(policy, analysis, messages);
            && clean.level == analysis.level
            && (key in clean.fields <==> Accepted(policy, analysis, messages, key))
            && (key in clean.evidence <==> Accepted(policy, analysis, messages, key))
            && (key in clean.fields ==>
                  && clean.fields[key] == Trim(analysis.fields[key])
                  && clean.evidence[key].messageId == Cited(analysis, key).messageId
                  && clean.evidence[key].text == Trim(Cited(analysis, key).text))
            && (key in clean.confidence <==>
                  key in clean.fields && key in analysis.confidence && 0.0 <= analysis.confidence[key] <= 1.0)
            && (key in clean.confidence ==> clean.confidence[key] == analysis.confidence[key])
  {
  }

  /** The document is decoded elsewhere; none means that it did not decode. */
  method ParseAnalysis(policy: Policy, decoded: Option<Analysis>, messages: map<string, string>) returns (clean: Option<Analysis>)
    ensures clean.Some? <==> decoded.Some? && decoded.value.level in {"low", "medium", "high"}
    ensures clean.Some? ==> clean.value == Cleaned(policy, decoded.value, messages)
  {
    if decoded.None? || !ValidLevel(decoded.value.level) {
      return None;
    }
    var fields := CleanFields(policy, decoded.value, messages);
    clean := Some(fields);
  }

  /** Without a readable analysis only the level is guessed; the guess brings no field. */
  function Fallback(buying: bool): Analysis {
    Analysis(if buying then "high" else "low", map[], map[], map[])
  }

  // ---- Merging with the stored profile -------------------------------------------------------

  predicate Kept(previous: Analysis, messages: map<string, string>, key: string) {
    && key in previous.fields && Trim(Cited(previous, key).text) != ""
    && Backed(Cited(previous, key), messages)
  }

  function KeptFields(previous: Analysis, messages: map<string, string>): map<string, string> {
    map key | key in previous.fields && Kept(previous, messages, key) :: previous.fields[key]
  }

  function KeptEvidence(previous: Analysis, messages: map<string, string>): map<string, Evidence> {
    map key | key in previous.fields && Kept(previous, messages, key) :: Cited(previous, key)
  }

  function Merged(latest: Analysis, previous: Analysis, messages: map<string, string>): Analysis {
    latest.(fields := latest.fields + (KeptFields(previous, messages) - latest.fields.Keys),
            evidence := latest.evidence + (KeptEvidence(previous, messages) - latest.fields.Keys))
  }

  method CheckKept(previous: Analysis, messages: map<string, string>, key: string) returns (kept: bool)
    requires key in previous.fields
    ensures kept == Kept(previous, messages, key)
  {
    var cited := Cited(previous, key);
    kept := !(Trim(cited.text) == "" || cited.messageId !in messages || !Contains(messages[cited.messageId], cited.text));
  }

  /** The merge with some old fields still to come. */
  function MergedBut(latest: Analysis, previous: Analysis, messages: map<string, string>, left: set<string>): Analysis {
    latest.(fields := latest.fields + (KeptFields(previous, messages) - latest.fields.Keys - left),
            evidence := latest.evidence + (KeptEvidence(previous, messages) - latest.fields.Keys - left))
  }

  lemma MergeOne(latest: Analysis, previous: Analysis, messages: map<string, string>, left: set<string>, key: string)
    requires key in left && left <= previous.fields.Keys
    ensures var before := MergedBut(latest, previous, messages, left);
            MergedBut(latest, previous, messages, left - {key})
              == if key !in before.fields && Kept(previous, messages, key)
                 then before.(fields := before.fields[key := previous.fields[key]],
                              evidence := before.evidence[key := Cited(previous, key)])
                 else before
  {
    OneLeft(latest.fields, KeptFields(previous, messages) - latest.fields.Keys, left, key);
    OneLeft(latest.evidence, KeptEvidence(previous, messages) - latest.fields.Keys, left, key);
  }

  method Merge(latest: Analysis, previous: Analysis, messages: map<string, string>) returns (merged: Analysis)
    ensures merged == Merged(latest, previous, messages)
  {
    merged := latest;
    var left := previous.fields.Keys;
    AllLeft(latest.fields, KeptFields(previous, messages) - latest.fields.Keys, left);
    AllLeft(latest.evidence, KeptEvidence(previous, messages) - latest.fields.Keys, left);
    while left != {}
      invariant left <= previous.fields.Keys
      invariant merged == MergedBut(latest, previous, messages, left)
      decreases left
    {
      var key :| key in left;
      MergeOne(latest, previous, messages, left, key);
      var kept := CheckKept(previous, messages, key);
      if key !in merged.fields && kept {
        merged := merged.(fields := merged.fields[key := previous.fields[key]],
                          evidence := merged.evidence[key := Cited(previous, key)]);
      }
      left := left - {key};
    }
    NoneLeft(latest.fields, KeptFields(previous, messages) - latest.fields.Keys);
    NoneLeft(latest.evidence, KeptEvidence(previous, messages) - latest.fields.Keys);
  }

  // ---- The visitor messages an analysis may cite ---------------------------------------------

  function VisitorMessages(messages: seq<ContextMessage>, id: string, text: string): map<string, string> {
    if messages == [] then map[id := text]
    else
      var rest := VisitorMessages(messages[..|messages| - 1], id, text);
      var last := messages[|messages| - 1];
      if last.role == Visitor && last.id != "" then rest[last.id := last.text] else rest
  }

  /** The last message of the visitor with this id. */
  predicate IsLastBy(messages: seq<ContextMessage>, i: nat, id: string) {
    && i < |messages| && messages[i].role == Visitor && messages[i].id == id
    && forall j | i < j < |messages| :: !(messages[j].role == Visitor && messages[j].id == id)
  }

  /** The messages of the window count by their ids, the last under each; the current one only if the window has none of its id. */
  lemma {:induction false} VisitorMessagesAre(messages: seq<ContextMessage>, id: string, text: string, key: string)
    ensures var items := VisitorMessages(messages, id, text);
            && (forall i: nat :: key != "" && IsLastBy(messages, i, key) ==> key in items && items[key] == messages[i].text)
            && (key == "" || (forall i: nat :: !IsLastBy(messages, i, key)) ==>
                  (key in items <==> key == id) && (key == id ==> items[key] == text))
    decreases |messages|
  {
    if messages != [] {
      var n := |messages| - 1;
      var last := messages[n];
      VisitorMessagesAre(messages[..n], id, text, key);
      if last.role == Visitor && last.id == key {
        assert IsLastBy(messages, n, key);
      } else {
        forall i: nat ensures IsLastBy(messages, i, key) <==> IsLastBy(messages[..n], i, key) {
        }
      }
    }
  }

  method CollectVisitorMessages(context: Context, id: string, text: string) returns (items: map<string, string>)
    ensures items == VisitorMessages(context.messages, id, text)
  {
    items := map[id := text];
    for i := 0 to |context.messages|
      invariant items == VisitorMessages(context.messages[..i], id, text)
    {
      assert context.messages[..i + 1][..i] == context.messages[..i];
      var message := context.messages[i];
      if message.role == Visitor && message.id != "" {
        items := items[message.id := message.text];
      }
    }
    assert context.messages[..|context.messages|] == context.messages;
  }

  /** One analysis of one message, up to the profile that is stored. */
  function Analyzed(policy: Policy, decoded: Option<Analysis>, buying: bool, previous: Option<Analysis>,
                    messages: map<string, string>): Analysis {
    var latest := if decoded.Some? && ValidLevel(decoded.value.level) then Cleaned(policy, decoded.value, messages)
                 else Fallback(buying);
    if previous.Some? then Merged(latest, previous.value, messages) else latest
  }

  method Analyze(policy: Policy, decoded: Option<Analysis>, buying: bool, previous: Option<Analysis>,
                 context: Context, id: string, text: string) returns (profile: Analysis)
    ensures profile == Analyzed(policy, decoded, buying, previous, VisitorMessages(context.messages, id, text))
    ensures var readable := decoded.Some? && decoded.value.level in {"low", "medium", "high"};
            && profile.level == (if readable then decoded.value.level else if buying then "high" else "low")
            && (!readable ==> profile.confidence == map[] && profile.fields.Keys <= if previous.Some? then previous.value.fields.Keys else {})
  {
    var messages := CollectVisitorMessages(context, id, text);
    var clean := ParseAnalysis(policy, decoded, messages);
    profile := if clean.Some? then clean.value else Fallback(buying);
    if previous.Some? {
      profile := Merge(profile, previous.value, messages);
    }
  }

  // ---- What a stored profile satisfies -------------------------------------------------------

  /** The field is allowed, says something harmless, and rests on the visitor's own words. */
  ghost predicate FieldSupported(policy: Policy, profile: Analysis, said: map<string, string>, key: string)
    requires key in profile.fields && key in profile.evidence
  {
    var value, evidence := profile.fields[key], profile.evidence[key];
    && policy.Allows(key)
    && value != "" && Trimmed(value) && !LooksSensitive(value)
    && evidence.text != "" && Trimmed(evidence.text) && Backed(evidence, said)
  }

  ghost predicate Supported(policy: Policy, profile: Analysis, said: map<string, string>) {
    && profile.fields.Keys == profile.evidence.Keys
    && profile.confidence.Keys <= profile.fields.Keys
    && (forall key <- profile.fields :: FieldSupported(policy, profile, said, key))
    && (forall key <- profile.confidence :: 0.0 <= profile.confidence[key] <= 1.0)
  }

  /** What an analysis may see: words of this session's visitor, whole or trimmed. */
  ghost predicate Visible(messages: map<string, string>, said: map<string, string>) {
    forall id <- messages :: id in said && (messages[id] == said[id] || messages[id] == Trim(said[id]))
  }

  lemma BackedBySaid(evidence: Evidence, messages: map<string, string>, said: map<string, string>)
    requires Visible(messages, said) && Backed(evidence, messages)
    ensures Backed(evidence, said)
  {
    var text := said[evidence.messageId];
    TrimIsPart(text);
    if messages[evidence.messageId] == Trim(text) {
      PartOfPart(text, Trim(text), evidence.text);
    }
  }

  lemma CleanedIsSupported(policy: Policy, analysis: Analysis, messages: map<string, string>, said: map<string, string>)
    requires Visible(messages, said)
    ensures Supported(policy, Cleaned(policy, analysis, messages), said)
  {
    var clean := Cleaned(policy, analysis, messages);
    forall key <- clean.fields ensures FieldSupported(policy, clean, said, key) {
      TrimIsPart(analysis.fields[key]);
      TrimIsPart(Cited(analysis, key).text);
      BackedBySaid(TrimmedCitation(analysis, key), messages, said);
    }
  }

  lemma MergedIsSupported(policy: Policy, latest: Analysis, previous: Analysis, messages: map<string, string>, said: map<string, string>)
    requires Supported(policy, latest, said) && Supported(policy, previous, said)
    ensures Supported(policy, Merged(latest, previous, messages), said)
  {
    var merged := Merged(latest, previous, messages);
    forall key <- merged.fields ensures key in merged.evidence && FieldSupported(policy, merged, said, key) {
      if key in latest.fields {
        assert FieldSupported(policy, latest, said, key);
      } else {
        assert FieldSupported(policy, previous, said, key);
      }
    }
  }

  lemma AnalyzedIsSupported(policy: Policy, decoded: Option<Analysis>, buying: bool, previous: Option<Analysis>,
                            messages: map<string, string>, said: map<string, string>)
    requires Visible(messages, said) && (previous.Some? ==> Supported(policy, previous.value, said))
    ensures Supported(policy, Analyzed(policy, decoded, buying, previous, messages), said)
  {
    var latest := Analyzed(policy, decoded, buying, None, messages);
    if decoded.Some? {
      CleanedIsSupported(policy, decoded.value, messages, said);
    }
    assert Supported(policy, latest, said);
    if previous.Some? {
      MergedIsSupported(policy, latest, previous.value, messages, said);
    }
  }

  // ---- Over all analyses of a session --------------------------------------------------------

  /** The visitor's messages by id, and every profile that was stored, oldest first. */
  datatype Session = Session(said: map<string, string>, saved: seq<Analysis>)

  /**
   * An analysis reads rows of the session and the profile, then stores its own. Because other
   * analyses may run in between, the profile it merges may be any that was ever stored.
   */
  datatype Action =
    | Say(id: string, text: string)
    | Save(rows: seq<Row>, summary: string, context: Context, current: string,
           decoded: Option<Analysis>, buying: bool, read: Option<nat>)

  ghost predicate RowsOf(rows: seq<Row>, said: map<string, string>) {
    forall row <- rows :: row.fromVisitor ==> row.id in said && said[row.id] == row.text
  }

  ghost predicate Step(policy: Policy, s: Session, a: Action, t: Session) {
    match a
    case Say(id, text) => id !in s.said && t == s.(said := s.said[id := text])
    case Save(rows, summary, context, current, decoded, buying, read) =>
      && current in s.said && RowsOf(rows, s.said) && IsWindow(summary, Spoken(rows), context)
      && (read.Some? ==> read.value < |s.saved|)
      && var previous := if read.Some? then Some(s.saved[read.value]) else None;
         var messages := VisitorMessages(context.messages, current, s.said[current]);
         t == s.(saved := s.saved + [Analyzed(policy, decoded, buying, previous, messages)])
  }

  ghost predicate Run(policy: Policy, states: seq<Session>, actions: seq<Action>) {
    && |states| == |actions| + 1
    && forall i | 0 <= i < |actions| :: Step(policy, states[i], actions[i], states[i + 1])
  }

  ghost predicate AllSupported(policy: Policy, s: Session) {
    forall i | 0 <= i < |s.saved| :: Supported(policy, s.saved[i], s.said)
  }

  lemma {:induction false} WindowIsVisible(messages: seq<ContextMessage>, rows: seq<Row>, id: string, said: map<string, string>)
    requires RowsOf(rows, said) && id in said
    requires forall m <- messages :: Stored(m, rows)
    ensures Visible(VisitorMessages(messages, id, said[id]), said)
    decreases |messages|
  {
    if messages != [] {
      var last := messages[|messages| - 1];
      assert last in messages;
      var row :| row in rows && last == AsMessage(row);
      assert forall m <- messages[..|messages| - 1] :: m in messages;
      WindowIsVisible(messages[..|messages| - 1], rows, id, said);
    }
  }

  lemma MoreSaid(policy: Policy, profile: Analysis, said: map<string, string>, id: string, text: string)
    requires Supported(policy, profile, said) && id !in said
    ensures Supported(policy, profile, said[id := text])
  {
    forall key <- profile.fields ensures FieldSupported(policy, profile, said[id := text], key) {
      assert FieldSupported(policy, profile, said, key);
    }
  }

  lemma StepKeepsSupported(policy: Policy, s: Session, a: Action, t: Session)
    requires AllSupported(policy, s) && Step(policy, s, a, t)
    ensures AllSupported(policy, t)
  {
    match a
    case Say(id, text) =>
      forall i | 0 <= i < |t.saved| ensures Supported(policy, t.saved[i], t.said) {
        MoreSaid(policy, s.saved[i], s.said, id, text);
      }
    case Save(rows, summary, context, current, decoded, buying, read) =>
      SpokenAreSpoken(rows);
      forall m <- context.messages ensures Stored(m, rows) {
        assert m in Spoken(rows);
      }
      WindowIsVisible(context.messages, rows, current, s.said);
      AnalyzedIsSupported(policy, decoded, buying, if read.Some? then Some(s.saved[read.value]) else None,
                          VisitorMessages(context.messages, current, s.said[current]), s.said);
  }

  /** Every stored profile of every run rests on what the visitor of that session said. */
  lemma {:induction false} EveryProfileIsSupported(policy: Policy, states: seq<Session>, actions: seq<Action>)
    requires Run(policy, states, actions) && states[0].saved == []
    ensures AllSupported(policy, states[|states| - 1])
    decreases |actions|
  {
    if actions != [] {
      var n := |actions| - 1;
      EveryProfileIsSupported(policy, states[..|states| - 1], actions[..n]);
      assert states[..|states| - 1][n] == states[n];
      StepKeepsSupported(policy, states[n], actions[n], states[n + 1]);
    }
  }

  /** With the allowlist of the program, a stored profile holds at most seven kinds of fields, and never a contact. */
  lemma StoredFieldsAreBusinessFields(states: seq<Session>, actions: seq<Action>, profile: Analysis)
    requires Run(POLICY, states, actions) && states[0].saved == [] && profile in states[|states| - 1].saved
    ensures profile.fields.Keys <= {"budget", "timeline", "company", "industry", "role", "product_interest", "team_size"}
    ensures forall key <- profile.fields :: !LooksSensitive(profile.fields[key])
  {
    EveryProfileIsSupported(POLICY, states, actions);
    assert Supported(POLICY, profile, states[|states| - 1].said);
    forall key <- profile.fields
      ensures key in POLICY.allowlist && key != "contact" && !LooksSensitive(profile.fields[key])
    {
      assert FieldSupported(POLICY, profile, states[|states| - 1].said, key);
    }
  }

  // ---- What a merge keeps --------------------------------------------------------------------

  /** Fresh values win with their own evidence; everything else in the result is an old field. */
  lemma FreshBeatsOld(policy: Policy, latest: Analysis, previous: Analysis, messages: map<string, string>, said: map<string, string>, key: string)
    requires Supported(policy, latest, said) && Supported(policy, previous, said)
    ensures var merged := Merged(latest, previous, messages);
            if key in latest.fields then
              && key in merged.fields && merged.fields[key] == latest.fields[key]
              && merged.evidence[key] == latest.evidence[key]
            else if key in merged.fields then
              && key in previous.fields && merged.fields[key] == previous.fields[key]
              && merged.evidence[key] == previous.evidence[key] && key !in merged.confidence
            else true
  {
  }

  /** An old field with no fresh value survives exactly while its message is among those read. */
  lemma OldFieldSurvivesExactlyWhen(policy: Policy, latest: Analysis, previous: Analysis, messages: map<string, string>,
                                    said: map<string, string>, key: string)
    requires Supported(policy, previous, said) && Visible(messages, said)
    requires key in previous.fields && key !in latest.fields
    ensures key in Merged(latest, previous, messages).fields <==> previous.evidence[key].messageId in messages
  {
    var evidence := previous.evidence[key];
    assert FieldSupported(policy, previous, said, key);
    TrimIsPart(evidence.text);
    if evidence.messageId in messages {
      TrimKeepsTrimmedParts(said[evidence.messageId], evidence.text);
      assert evidence.text[0] in evidence.text;
    }
  }
}
