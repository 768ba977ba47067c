/**
 * The evidence prompt lists visitor messages with their ids in sorted order, so it does not depend
 * on the iteration order of the map it is made from; and that map can be read back from it.
 */
module EvidenceRendering {
  import opened Options
  import opened Text
  import opened Rendering
  import opened TextOrder

  // ---- Sorted parts --------------------------------------------------------------------------

  ghost predicate Ascending(parts: seq<string>) {
    forall i, j | 0 <= i < j < |parts| :: Before(parts[i], parts[j])
  }

  lemma {:induction false} AscendingIsUnique(a: seq<string>, b: seq<string>)
    requires Ascending(a) && Ascending(b) && forall s :: s in a <==> s in b
    ensures a == b
    decreases |a|
  {
    if a == [] {
      assert forall i | 0 <= i < |b| :: b[i] in b;
    } else {
      assert a[0] in a && a[0] in b;
      assert b[0] in b && b[0] in a;
      BeforeIsTotal(a[0], b[0]);
      assert a[0] == b[0];
      forall s ensures s in a[1..] <==> s in b[1..] {
        BeforeIsTotal(s, a[0]);
        assert s in a <==> s == a[0] || s in a[1..];
        assert s in b <==> s == b[0] || s in b[1..];
      }
      AscendingIsUnique(a[1..], b[1..]);
      assert a == [a[0]] + a[1..] && b == [b[0]] + b[1..];
    }
  }

  lemma InsertedInOrder(sorted: seq<string>, part: string, i: nat)
    requires Ascending(sorted) && i <= |sorted| && (i > 0 ==> Before(sorted[i - 1], part))
    requires forall j | i <= j < |sorted| :: Before(part, sorted[j])
    ensures Ascending(sorted[..i] + [part] + sorted[i..])
    ensures forall s :: s in sorted[..i] + [part] + sorted[i..] <==> s in sorted || s == part
  {
    forall j | 0 <= j < i ensures Before(sorted[j], part) {
      if j < i - 1 {
        BeforeIsTransitive(sorted[j], sorted[i - 1], part);
      }
    }
    assert sorted == sorted[..i] + sorted[i..];
  }

  /** Put one string at its place in the order. */
  method Insert(sorted: seq<string>, part: string) returns (longer: seq<string>)
    requires Ascending(sorted) && part !in sorted
    ensures Ascending(longer) && forall s :: s in longer <==> s in sorted || s == part
  {
    var i := |sorted|;
    while i > 0 && !Before(sorted[i - 1], part)
      invariant 0 <= i <= |sorted|
      invariant forall j | i <= j < |sorted| :: Before(part, sorted[j])
    {
      BeforeIsTotal(sorted[i - 1], part);
      i := i - 1;
    }
    longer := sorted[..i] + [part] + sorted[i..];
    InsertedInOrder(sorted, part, i);
  }

  ghost predicate Distinct(parts: seq<string>) {
    forall i, j | 0 <= i < j < |parts| :: parts[i] != parts[j]
  }

  method Sort(parts: seq<string>) returns (sorted: seq<string>)
    requires Distinct(parts)
    ensures Ascending(sorted) && forall s :: s in sorted <==> s in parts
  {
    sorted := [];
    for i := 0 to |parts|
      invariant Ascending(sorted) && forall s :: s in sorted <==> s in parts[..i]
    {
      assert parts[..i + 1] == parts[..i] + [parts[i]];
      sorted := Insert(sorted, parts[i]);
    }
    assert parts[..|parts|] == parts;
  }

  // ---- The prompt ----------------------------------------------------------------------------

  datatype Frame = Frame(header: string, footer: string, idOpening: string, idClosing: string, textClosing: string) {
    ghost predicate Sound() {
      && idClosing != "" && idClosing[0] == '"'
      && textClosing != "" && textClosing[0] == '<'
      && idOpening != "" && idOpening[0] != '\n'
      && Differ(footer, idOpening)
    }
  }

  const FRAME := Frame("<aicc_intent_evidence>", "</aicc_intent_evidence>",
                       "<visitor_message id=\"", "\">", "</visitor_message>")

  lemma FrameIsSound()
    ensures FRAME.Sound()
  {
    assert FRAME.footer[1] == '/' && FRAME.idOpening[1] == 'v';
  }

  function Part(f: Frame, id: string, text: string): string {
    Put(f.idOpening, id, f.idClosing) + Put("", text, f.textClosing)
  }

  function Framed(f: Frame, parts: seq<string>): string {
    f.header + "\n" + JoinLines(parts) + "\n" + f.footer
  }

  /** The parts are those of the pairs, each of them and nothing else. */
  ghost predicate PartsOf(f: Frame, parts: seq<string>, pairs: set<(string, string)>) {
    && AreParts(f, parts)
    && forall id, text :: (id, text) in pairs <==> Part(f, id, text) in parts
  }

  ghost predicate AreParts(f: Frame, parts: seq<string>) {
    forall p <- parts :: exists id, text :: p == Part(f, id, text)
  }

  /** The ids with their texts. */
  function Pairs(messages: map<string, string>): set<(string, string)> {
    set id <- messages :: (id, messages[id])
  }

  ghost predicate IsEvidence(f: Frame, text: string, messages: map<string, string>) {
    exists parts :: Ascending(parts) && PartsOf(f, parts, Pairs(messages)) && text == Framed(f, parts)
  }

  // ---- Reading it back -----------------------------------------------------------------------

  function TakePart(f: Frame, s: string): Option<((string, string), string)>
    requires f.idClosing != "" && f.textClosing != ""
  {
    var id :- Take(s, f.idOpening, f.idClosing);
    var text :- Take(id.1, "", f.textClosing);
    Some(((id.0, text.0), text.1))
  }

  lemma TakePartUndoes(f: Frame, id: string, text: string, rest: string)
    requires f.Sound()
    ensures TakePart(f, Part(f, id, text) + rest) == Some(((id, text), rest))
  {
    var said := Put("", text, f.textClosing);
    Regroup(Put(f.idOpening, id, f.idClosing), said, rest);
    TakeUndoesPut(f.idOpening, id, f.idClosing, said + rest);
    TakeUndoesPut("", text, f.textClosing, rest);
  }

  lemma PartIsInjective(f: Frame, id: string, text: string, otherId: string, otherText: string)
    requires f.Sound() && Part(f, id, text) == Part(f, otherId, otherText)
    ensures id == otherId && text == otherText
  {
    TakePartUndoes(f, id, text, "");
    TakePartUndoes(f, otherId, otherText, "");
  }

  lemma TakePartShortens(f: Frame, s: string)
    requires f.idClosing != "" && f.textClosing != "" && TakePart(f, s).Some?
    ensures |TakePart(f, s).value.1| < |s|
  {
  }

  /** Parts up to the footer, each with its line end. */
  function TakeParts(f: Frame, s: string): Option<set<(string, string)>>
    requires f.idClosing != "" && f.textClosing != ""
    decreases |s|
  {
    if StartsWith(s, f.footer) then Some({})
    else
      var part :- TakePart(f, s);
      TakePartShortens(f, s);
      var rest :- Expect(part.1, "\n");
      var others :- TakeParts(f, rest);
      Some({part.0} + others)
  }

  function ParseEvidence(f: Frame, s: string): Option<set<(string, string)>>
    requires f.idClosing != "" && f.textClosing != ""
  {
    var body :- Expect(s, f.header + "\n");
    TakeParts(f, if StartsWith(body, "\n") then body[1..] else body)
  }

  function EndLines(parts: seq<string>): string {
    if parts == [] then "" else parts[0] + "\n" + EndLines(parts[1..])
  }

  lemma {:induction false} JoinEndsLines(parts: seq<string>)
    requires parts != []
    ensures JoinLines(parts) + "\n" == EndLines(parts)
    decreases |parts|
  {
    if |parts| == 1 {
      assert EndLines(parts[1..]) == "";
    } else {
      JoinEndsLines(parts[1..]);
      Regroup(parts[0] + "\n", JoinLines(parts[1..]), "\n");
    }
  }

  lemma {:induction false} TakePartsUndoes(f: Frame, parts: seq<string>) returns (pairs: set<(string, string)>)
    requires f.Sound() && AreParts(f, parts)
    ensures TakeParts(f, EndLines(parts) + f.footer) == Some(pairs)
    ensures forall id, text :: (id, text) in pairs <==> Part(f, id, text) in parts
    decreases |parts|
  {
    if parts == [] {
      assert "" + f.footer == f.footer;
      pairs := {};
    } else {
      assert parts[0] in parts;
      var id, text :| parts[0] == Part(f, id, text);
      assert forall p <- parts[1..] :: p in parts;
      var others := TakePartsUndoes(f, parts[1..]);
      pairs := {(id, text)} + others;
      TakeOnePart(f, id, text, EndLines(parts[1..]) + f.footer);
      Regroup(parts[0] + "\n", EndLines(parts[1..]), f.footer);
      Regroup(parts[0], "\n", EndLines(parts[1..]) + f.footer);
      forall i, t ensures (i, t) in pairs <==> Part(f, i, t) in parts {
        if Part(f, i, t) == parts[0] {
          PartIsInjective(f, i, t, id, text);
        }
        assert Part(f, i, t) in parts <==> Part(f, i, t) == parts[0] || Part(f, i, t) in parts[1..];
      }
    }
  }

  lemma TakeOnePart(f: Frame, id: string, text: string, tail: string)
    requires f.Sound() && TakeParts(f, tail).Some?
    ensures TakeParts(f, Part(f, id, text) + ("\n" + tail)) == Some({(id, text)} + TakeParts(f, tail).value)
  {
    var s := Part(f, id, text) + ("\n" + tail);
    TakePartUndoes(f, id, text, "\n" + tail);
    ExpectFinds("\n", tail);
    assert StartsWith(s, f.idOpening);
    if StartsWith(s, f.footer) {
      DifferentStart(f.footer, f.idOpening, s);
    }
  }

  // ---- Main results --------------------------------------------------------------------------

  /** One map, one prompt: whatever order the map is walked in. */
  lemma EvidenceIsOrderFree(f: Frame, a: string, b: string, messages: map<string, string>)
    requires IsEvidence(f, a, messages) && IsEvidence(f, b, messages)
    ensures a == b
  {
    var p :| Ascending(p) && PartsOf(f, p, Pairs(messages)) && a == Framed(f, p);
    var q :| Ascending(q) && PartsOf(f, q, Pairs(messages)) && b == Framed(f, q);
    SameParts(f, p, q, Pairs(messages));
    AscendingIsUnique(p, q);
  }

  lemma SameParts(f: Frame, p: seq<string>, q: seq<string>, pairs: set<(string, string)>)
    requires PartsOf(f, p, pairs) && PartsOf(f, q, pairs)
    ensures forall s :: s in p <==> s in q
  {
    forall s ensures s in p <==> s in q {
      if s in p || s in q {
        var id, text :| s == Part(f, id, text);
      }
    }
  }

  /** The id and text of every visitor message can be read back, and nothing else. */
  lemma EvidenceIsRecovered(f: Frame, text: string, messages: map<string, string>)
    requires f.Sound() && IsEvidence(f, text, messages)
    ensures ParseEvidence(f, text) == Some(Pairs(messages))
  {
    var parts :| Ascending(parts) && PartsOf(f, parts, Pairs(messages)) && text == Framed(f, parts);
    var pairs := TakePartsUndoes(f, parts);
    assert pairs == Pairs(messages) by {
      forall pair ensures pair in pairs <==> pair in Pairs(messages) {
        assert pair == (pair.0, pair.1);
      }
    }
    if parts == [] {
      ReadEmpty(f);
      assert EndLines(parts) + f.footer == f.footer;
    } else {
      ReadFrame(f, parts);
    }
  }

  lemma ReadHeader(f: Frame, body: string)
    requires f.Sound()
    ensures ParseEvidence(f, (f.header + "\n") + body) == TakeParts(f, if StartsWith(body, "\n") then body[1..] else body)
  {
    ExpectFinds(f.header + "\n", body);
  }

  lemma PartsStart(f: Frame, parts: seq<string>)
    requires f.Sound() && AreParts(f, parts) && parts != []
    ensures EndLines(parts) != "" && EndLines(parts)[0] == f.idOpening[0]
  {
    assert parts[0] in parts;
    var id, text :| parts[0] == Part(f, id, text);
    assert parts[0][0] == f.idOpening[0];
  }

  lemma ReadEmpty(f: Frame)
    requires f.Sound()
    ensures ParseEvidence(f, Framed(f, [])) == TakeParts(f, f.footer)
  {
    var body := "\n" + f.footer;
    assert Framed(f, []) == (f.header + "\n") + body;
    ReadHeader(f, body);
    assert body[1..] == f.footer;
  }

  lemma ReadFrame(f: Frame, parts: seq<string>)
    requires f.Sound() && AreParts(f, parts) && parts != []
    ensures ParseEvidence(f, Framed(f, parts)) == TakeParts(f, EndLines(parts) + f.footer)
  {
    var body := EndLines(parts) + f.footer;
    RegroupFrame(f.header, "\n", JoinLines(parts), f.footer);
    JoinEndsLines(parts);
    PartsStart(f, parts);
    assert body[0] == f.idOpening[0];
    ReadHeader(f, body);
  }

  lemma RegroupFrame(a: string, b: string, c: string, d: string)
    ensures a + b + c + b + d == (a + b) + (c + b + d)
  {
  }

  /** Maps with one prompt are one map. */
  lemma EvidenceIsInjective(f: Frame, text: string, a: map<string, string>, b: map<string, string>)
    requires f.Sound() && IsEvidence(f, text, a) && IsEvidence(f, text, b)
    ensures a == b
  {
    EvidenceIsRecovered(f, text, a);
    EvidenceIsRecovered(f, text, b);
    PairsDetermine(a, b);
  }

  lemma PairsDetermine(a: map<string, string>, b: map<string, string>)
    requires Pairs(a) == Pairs(b)
    ensures a == b
  {
    forall id ensures id in a <==> id in b {
      assert id in a ==> (id, a[id]) in Pairs(a);
      assert id in b ==> (id, b[id]) in Pairs(b);
    }
    forall id | id in a ensures a[id] == b[id] {
      assert (id, a[id]) in Pairs(a);
    }
  }

  // ---- Making the prompt ---------------------------------------------------------------------

  lemma AddPart(f: Frame, parts: seq<string>, pairs: set<(string, string)>, id: string, text: string)
    requires f.Sound() && PartsOf(f, parts, pairs) && (id, text) !in pairs
    ensures Part(f, id, text) !in parts
    ensures PartsOf(f, parts + [Part(f, id, text)], pairs + {(id, text)})
  {
    forall i, t ensures (i, t) in pairs + {(id, text)} <==> Part(f, i, t) in parts + [Part(f, id, text)] {
      if Part(f, i, t) == Part(f, id, text) {
        PartIsInjective(f, i, t, id, text);
      }
    }
  }

  /** The parts of a map, in whatever order it is walked. */
  method CollectParts(f: Frame, messages: map<string, string>) returns (parts: seq<string>)
    requires f.Sound()
    ensures PartsOf(f, parts, Pairs(messages)) && Distinct(parts)
  {
    parts := [];
    var left := messages.Keys;
    ghost var done: set<(string, string)> := {};
    while left != {}
      invariant left <= messages.Keys
      invariant done == set id | id in messages.Keys - left :: (id, messages[id])
      invariant PartsOf(f, parts, done)
      invariant Distinct(parts)
      decreases |left|
    {
      var id :| id in left;
      AddPart(f, parts, done, id, messages[id]);
      parts := parts + [Part(f, id, messages[id])];
      done := done + {(id, messages[id])};
      left := left - {id};
    }
    assert done == Pairs(messages);
  }

  method RenderEvidence(f: Frame, messages: map<string, string>) returns (text: string)
    requires f.Sound()
    ensures IsEvidence(f, text, messages)
  {
    var parts := CollectParts(f, messages);
    var sorted := Sort(parts);
    assert AreParts(f, sorted);
    text := Framed(f, sorted);
  }

  // ---- The prompt as it is sent --------------------------------------------------------------

  /** The tags of the program: one element a message, with its id, on lines of their own. */
  lemma MessagesAreTagged(id: string, text: string, parts: seq<string>)
    ensures FRAME.idOpening == "<visitor_message id=\"" && FRAME.idClosing == "\">" && FRAME.textClosing == "</visitor_message>"
    ensures Part(FRAME, id, text) == FRAME.idOpening + Escape(id) + FRAME.idClosing + (Escape(text) + FRAME.textClosing)
    ensures FRAME.header == "<aicc_intent_evidence>" && FRAME.footer == "</aicc_intent_evidence>"
    ensures Framed(FRAME, parts) == FRAME.header + "\n" + JoinLines(parts) + "\n" + FRAME.footer
  {
  }

  /** With the tags of the program: every id and text can be read back from the prompt, and nothing else. */
  method RenderPrompt(messages: map<string, string>) returns (text: string)
    ensures IsEvidence(FRAME, text, messages) && ParseEvidence(FRAME, text) == Some(Pairs(messages))
  {
    FrameIsSound();
    text := RenderEvidence(FRAME, messages);
    EvidenceIsRecovered(FRAME, text, messages);
  }

  /** With those tags a prompt determines the messages it was made of. */
  lemma PromptDeterminesMessages(text: string, a: map<string, string>, b: map<string, string>)
    requires IsEvidence(FRAME, text, a) && IsEvidence(FRAME, text, b)
    ensures a == b
  {
    FrameIsSound();
    EvidenceIsInjective(FRAME, text, a, b);
  }
}
