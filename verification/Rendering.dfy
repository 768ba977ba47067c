/**
 * How stored text is put inside prompts, and that it can be taken out again: parsers recover
 * exactly what was rendered, so no text can pass for another message, role or summary.
 */
module Rendering {
  import opened Options
  import opened Text
  import opened ConversationContext

  // ---- One escaped piece between two literals ------------------------------------------------

  function Put(open: string, text: string, close: string): string {
    open + Escape(text) + close
  }

  /** Read one piece back; the rest follows the closing literal. */
  function Take(s: string, open: string, close: string): Option<(string, string)>
    requires close != ""
  {
    var body :- Expect(s, open);
    var raw := Until(body, close[0]);
    var rest :- Expect(body[|raw|..], close);
    Some((Unescape(raw), rest))
  }

  lemma TakeUndoesPut(open: string, text: string, close: string, rest: string)
    requires close != "" && (close[0] == '<' || close[0] == '"')
    ensures Take(Put(open, text, close) + rest, open, close) == Some((text, rest))
  {
    var tail := close + rest;
    var body := Escape(text) + tail;
    assert Put(open, text, close) + rest == open + body;
    ExpectFinds(open, body);
    EscapedIsPlain(text);
    UntilStops(Escape(text), tail, close[0]);
    assert body[|Escape(text)|..] == tail;
    ExpectFinds(close, rest);
    UnescapeUndoesEscape(text);
  }

  lemma TakeShortens(s: string, open: string, close: string)
    requires close != "" && Take(s, open, close).Some?
    ensures |Take(s, open, close).value.1| < |s|
  {
  }

  // ---- The conversation context --------------------------------------------------------------

  datatype Line = Line(role: Role, text: string)

  function Lines(messages: seq<ContextMessage>): seq<Line> {
    seq(|messages|, i requires 0 <= i < |messages| => Line(messages[i].role, messages[i].text))
  }

  function RoleName(role: Role): string {
    match role
    case Visitor => "visitor"
    case Assistant => "assistant"
  }

  /** The literals around the rendered pieces. */
  datatype Markup = Markup(header: string, footer: string, summaryOpening: string, summaryClosing: string,
                           roleOpening: string, roleClosing: string, lineClosing: string) {
    function LineOpening(role: Role): string {
      roleOpening + RoleName(role) + roleClosing
    }

    /** Closings start a tag, and no two things that may come next start alike. */
    ghost predicate Sound() {
      && summaryClosing != "" && summaryClosing[0] == '<'
      && lineClosing != "" && lineClosing[0] == '<'
      && Differ(footer, summaryOpening)
      && Differ(LineOpening(Visitor), summaryOpening) && Differ(LineOpening(Assistant), summaryOpening)
      && Differ(footer, LineOpening(Visitor)) && Differ(footer, LineOpening(Assistant))
      && Differ(LineOpening(Assistant), LineOpening(Visitor))
    }
  }

  ghost predicate Differ(a: string, b: string) {
    exists i: nat | i < |a| && i < |b| :: a[i] != b[i]
  }

  lemma DifferentStart(a: string, b: string, s: string)
    requires Differ(a, b) && StartsWith(s, a)
    ensures !StartsWith(s, b)
  {
    var i: nat :| i < |a| && i < |b| && a[i] != b[i];
    assert s[i] == a[i];
  }

  const MARKUP := Markup("<manager_conversation_context>\n", "</manager_conversation_context>",
                         "<summary>", "</summary>\n", "<message role=\"", "\">", "</message>\n")

  lemma MarkupIsSound()
    ensures MARKUP.Sound()
  {
    assert MARKUP.footer[1] == '/' && MARKUP.summaryOpening[1] == 's';
    assert MARKUP.LineOpening(Visitor)[1] == 'm' && MARKUP.LineOpening(Visitor)[15] == 'v';
    assert MARKUP.LineOpening(Assistant)[1] == 'm' && MARKUP.LineOpening(Assistant)[15] == 'a';
  }

  function RenderLines(m: Markup, lines: seq<Line>): string {
    if lines == [] then ""
    else Put(m.LineOpening(lines[0].role), lines[0].text, m.lineClosing) + RenderLines(m, lines[1..])
  }

  function RenderSummary(m: Markup, summary: string): string {
    if summary == "" then "" else Put(m.summaryOpening, summary, m.summaryClosing)
  }

  function RenderWith(m: Markup, context: Context): string {
    m.header + RenderSummary(m, context.summary) + RenderLines(m, Lines(context.messages)) + m.footer
  }

  /** One line appended piece by piece leaves the same text to come. */
  lemma AppendOne(m: Markup, text: string, lines: seq<Line>, i: nat)
    requires i < |lines|
    ensures text + RenderLines(m, lines[i..])
         == text + m.roleOpening + RoleName(lines[i].role) + m.roleClosing + Escape(lines[i].text)
              + m.lineClosing + RenderLines(m, lines[i + 1..])
  {
    var tail := RenderLines(m, lines[i + 1..]);
    assert lines[i..][1..] == lines[i + 1..];
    RegroupPieces(text, m.roleOpening, RoleName(lines[i].role), m.roleClosing, Escape(lines[i].text), m.lineClosing, tail);
  }

  lemma RegroupPieces(text: string, a: string, b: string, c: string, d: string, e: string, tail: string)
    ensures text + (((a + b + c) + d + e) + tail) == text + a + b + c + d + e + tail
  {
  }

  lemma RegroupThree(text: string, a: string, b: string, c: string)
    ensures text + a + b + c == text + (a + b + c)
  {
  }

  method RenderMessage(m: Markup, before: string, message: ContextMessage) returns (text: string)
    ensures text == before + m.roleOpening + RoleName(message.role) + m.roleClosing + Escape(message.text) + m.lineClosing
  {
    text := before + m.roleOpening;
    text := text + RoleName(message.role);
    text := text + m.roleClosing;
    text := text + Escape(message.text);
    text := text + m.lineClosing;
  }

  /** The renderer as it is written: everything is appended to one builder. */
  method RenderContext(m: Markup, context: Context) returns (text: string)
    ensures text == RenderWith(m, context)
  {
    text := m.header;
    if context.summary != "" {
      RegroupThree(text, m.summaryOpening, Escape(context.summary), m.summaryClosing);
      text := text + m.summaryOpening;
      text := text + Escape(context.summary);
      text := text + m.summaryClosing;
    }
    ghost var start := m.header + RenderSummary(m, context.summary);
    assert text == start;
    ghost var lines := Lines(context.messages);
    for i := 0 to |context.messages|
      invariant text + RenderLines(m, lines[i..]) == start + RenderLines(m, lines)
    {
      var message := context.messages[i];
      AppendOne(m, text, lines, i);
      text := RenderMessage(m, text, message);
    }
    assert lines[|lines|..] == [];
    text := text + m.footer;
  }

  function TakeLines(m: Markup, s: string): (seq<Line>, string)
    requires m.lineClosing != ""
    decreases |s|
  {
    var visitor := Take(s, m.LineOpening(Visitor), m.lineClosing);
    var assistant := Take(s, m.LineOpening(Assistant), m.lineClosing);
    if visitor.Some? then
      TakeShortens(s, m.LineOpening(Visitor), m.lineClosing);
      var (lines, rest) := TakeLines(m, visitor.value.1);
      ([Line(Visitor, visitor.value.0)] + lines, rest)
    else if assistant.Some? then
      TakeShortens(s, m.LineOpening(Assistant), m.lineClosing);
      var (lines, rest) := TakeLines(m, assistant.value.1);
      ([Line(Assistant, assistant.value.0)] + lines, rest)
    else
      ([], s)
  }

  function TakeSummary(m: Markup, s: string): (string, string)
    requires m.summaryClosing != ""
  {
    var summary := Take(s, m.summaryOpening, m.summaryClosing);
    if summary.Some? then summary.value else ("", s)
  }

  datatype Recovered = Recovered(summary: string, lines: seq<Line>)

  function ParseContext(m: Markup, s: string): Option<(Recovered, string)>
    requires m.lineClosing != "" && m.summaryClosing != ""
  {
    var body :- Expect(s, m.header);
    var (summary, afterSummary) := TakeSummary(m, body);
    var (lines, afterLines) := TakeLines(m, afterSummary);
    var rest :- Expect(afterLines, m.footer);
    Some((Recovered(summary, lines), rest))
  }

  lemma TakeOne(m: Markup, line: Line, tail: string)
    requires m.Sound()
    ensures var s := Put(m.LineOpening(line.role), line.text, m.lineClosing) + tail;
            var (lines, rest) := TakeLines(m, tail);
            TakeLines(m, s) == ([line] + lines, rest)
  {
    var s := Put(m.LineOpening(line.role), line.text, m.lineClosing) + tail;
    TakeUndoesPut(m.LineOpening(line.role), line.text, m.lineClosing, tail);
    if line.role == Assistant {
      DifferentStart(m.LineOpening(Assistant), m.LineOpening(Visitor), s);
    }
  }

  lemma TakeNone(m: Markup, rest: string)
    requires m.Sound() && StartsWith(rest, m.footer)
    ensures TakeLines(m, rest) == ([], rest)
  {
    DifferentStart(m.footer, m.LineOpening(Visitor), rest);
    DifferentStart(m.footer, m.LineOpening(Assistant), rest);
  }

  lemma TakeStep(m: Markup, line: Line, lines: seq<Line>, rest: string)
    requires m.Sound() && TakeLines(m, RenderLines(m, lines) + rest) == (lines, rest)
    ensures TakeLines(m, RenderLines(m, [line] + lines) + rest) == ([line] + lines, rest)
  {
    var first, others := Put(m.LineOpening(line.role), line.text, m.lineClosing), RenderLines(m, lines);
    assert ([line] + lines)[1..] == lines;
    assert RenderLines(m, [line] + lines) == first + others;
    Regroup(first, others, rest);
    TakeOne(m, line, others + rest);
  }

  lemma {:induction false} TakeLinesUndoes(m: Markup, lines: seq<Line>, rest: string)
    requires m.Sound() && StartsWith(rest, m.footer)
    ensures TakeLines(m, RenderLines(m, lines) + rest) == (lines, rest)
    decreases |lines|
  {
    if lines == [] {
      TakeNone(m, rest);
      assert RenderLines(m, lines) + rest == rest;
    } else {
      TakeLinesUndoes(m, lines[1..], rest);
      TakeStep(m, lines[0], lines[1..], rest);
      assert [lines[0]] + lines[1..] == lines;
    }
  }

  lemma TakeSummaryUndoes(m: Markup, summary: string, lines: seq<Line>, rest: string)
    requires m.Sound() && StartsWith(rest, m.footer)
    ensures TakeSummary(m, RenderSummary(m, summary) + (RenderLines(m, lines) + rest))
         == (summary, RenderLines(m, lines) + rest)
  {
    var tail := RenderLines(m, lines) + rest;
    if summary != "" {
      TakeUndoesPut(m.summaryOpening, summary, m.summaryClosing, tail);
    } else {
      assert RenderSummary(m, summary) + tail == tail;
      var next := if lines == [] then m.footer else m.LineOpening(lines[0].role);
      assert StartsWith(tail, next);
      DifferentStart(next, m.summaryOpening, tail);
    }
  }

  lemma RegroupFour(a: string, b: string, c: string, d: string, rest: string)
    ensures a + b + c + d + rest == a + (b + (c + (d + rest)))
  {
  }

  /** Whatever was said, the prompt gives back the summary and every (role, text) in order. */
  lemma ParseUndoesRender(m: Markup, context: Context, rest: string)
    requires m.Sound()
    ensures ParseContext(m, RenderWith(m, context) + rest)
         == Some((Recovered(context.summary, Lines(context.messages)), rest))
  {
    var lines := Lines(context.messages);
    var footer := m.footer + rest;
    var tail := RenderLines(m, lines) + footer;
    var body := RenderSummary(m, context.summary) + tail;
    RegroupFour(m.header, RenderSummary(m, context.summary), RenderLines(m, lines), m.footer, rest);
    ExpectFinds(m.header, body);
    TakeSummaryUndoes(m, context.summary, lines, footer);
    TakeLinesUndoes(m, lines, footer);
    ExpectFinds(m.footer, rest);
  }

  // ---- The rendering letter by letter --------------------------------------------------------

  lemma LinesInARow(m: Markup, a: seq<Line>, b: seq<Line>)
    ensures RenderLines(m, a + b) == RenderLines(m, a) + RenderLines(m, b)
    decreases |a|
  {
    if a == [] {
      assert a + b == b;
    } else {
      assert (a + b)[1..] == a[1..] + b;
      LinesInARow(m, a[1..], b);
    }
  }

  /** How a message of either writer is set, and that messages follow one another as they are. */
  lemma MessagesAreTagged(visitor: string, assistant: string, earlier: seq<ContextMessage>, later: seq<ContextMessage>)
    ensures RenderLines(MARKUP, [Line(Visitor, visitor)]) == "<message role=\"visitor\">" + Escape(visitor) + "</message>\n"
    ensures RenderLines(MARKUP, [Line(Assistant, assistant)]) == "<message role=\"assistant\">" + Escape(assistant) + "</message>\n"
    ensures RenderLines(MARKUP, Lines(earlier + later)) == RenderLines(MARKUP, Lines(earlier)) + RenderLines(MARKUP, Lines(later))
  {
    assert Lines(earlier + later) == Lines(earlier) + Lines(later);
    LinesInARow(MARKUP, Lines(earlier), Lines(later));
    OneLine(Visitor, visitor);
    OneLine(Assistant, assistant);
  }

  lemma OneLine(role: Role, text: string)
    ensures RenderLines(MARKUP, [Line(role, text)])
         == (if role == Visitor then "<message role=\"visitor\">" else "<message role=\"assistant\">") + Escape(text) + "</message>\n"
  {
    assert [Line(role, text)][1..] == [];
    assert RenderLines(MARKUP, []) == "";
  }

  /** The context around the messages: one pair of tags, and the summary when there is one. */
  lemma ContextIsTagged(summary: string, messages: seq<ContextMessage>)
    ensures RenderWith(MARKUP, Context("", messages))
         == "<manager_conversation_context>\n" + RenderLines(MARKUP, Lines(messages)) + "</manager_conversation_context>"
    ensures summary != "" ==>
              RenderWith(MARKUP, Context(summary, messages))
                == "<manager_conversation_context>\n" + ("<summary>" + Escape(summary) + "</summary>\n")
                   + RenderLines(MARKUP, Lines(messages)) + "</manager_conversation_context>"
  {
  }

  // ---- The whole turn ------------------------------------------------------------------------

  const TURN_OPENING := "<current_visitor_message>"
  const TURN_CLOSING := "</current_visitor_message>"

  function JoinLines(parts: seq<string>): string {
    if parts == [] then ""
    else if |parts| == 1 then parts[0]
    else parts[0] + "\n" + JoinLines(parts[1..])
  }

  function TurnWith(m: Markup, instruction: string, context: Context, opening: string, text: string, closing: string): string {
    JoinLines([Trim(instruction), RenderWith(m, context), opening, Escape(Trim(text)), closing])
  }

  function RenderTurn(instruction: string, context: Context, text: string): string {
    TurnWith(MARKUP, instruction, context, TURN_OPENING, text, TURN_CLOSING)
  }

  /** What a reader who knows the instruction gets back: the context and the visitor's words. */
  function ParseTurnWith(m: Markup, s: string, instruction: string, opening: string, closing: string): Option<(Recovered, string)>
    requires m.lineClosing != "" && m.summaryClosing != "" && closing != ""
  {
    var afterInstruction :- Expect(s, Trim(instruction) + "\n");
    var context :- ParseContext(m, afterInstruction);
    var current :- Take(context.1, "\n" + opening + "\n", closing);
    if current.0 == "" then None else Some((context.0, current.0[..|current.0| - 1]))
  }

  function ParseTurn(s: string, instruction: string): Option<(Recovered, string)> {
    ParseTurnWith(MARKUP, s, instruction, TURN_OPENING, TURN_CLOSING)
  }

  lemma {:induction false} EscapeOfLine(text: string)
    ensures Escape(text + "\n") == Escape(text) + "\n"
    decreases |text|
  {
    if text == "" {
      assert text + "\n" == "\n";
    } else {
      assert (text + "\n")[1..] == text[1..] + "\n";
      EscapeOfLine(text[1..]);
    }
  }

  lemma JoinFive(a: string, b: string, c: string, d: string, e: string)
    ensures JoinLines([a, b, c, d, e]) == (a + "\n") + (b + ("\n" + c + "\n" + (d + "\n") + e))
  {
    assert [a, b, c, d, e][1..] == [b, c, d, e];
    assert [b, c, d, e][1..] == [c, d, e];
    assert [c, d, e][1..] == [d, e];
    assert [d, e][1..] == [e];
    assert JoinLines([d, e]) == d + "\n" + e;
    assert JoinLines([c, d, e]) == c + "\n" + (d + "\n" + e);
    assert JoinLines([b, c, d, e]) == b + "\n" + (c + "\n" + (d + "\n" + e));
    assert JoinLines([a, b, c, d, e]) == a + "\n" + (b + "\n" + (c + "\n" + (d + "\n" + e)));
  }

  lemma ParseUndoesTurnWith(m: Markup, instruction: string, context: Context, opening: string, text: string, closing: string)
    requires m.Sound() && closing != "" && closing[0] == '<'
    ensures ParseTurnWith(m, TurnWith(m, instruction, context, opening, text, closing), instruction, opening, closing)
         == Some((Recovered(context.summary, Lines(context.messages)), Trim(text)))
  {
    var said := Trim(text);
    var current := Put("\n" + opening + "\n", said + "\n", closing);
    EscapeOfLine(said);
    JoinFive(Trim(instruction), RenderWith(m, context), opening, Escape(said), closing);
    ExpectFinds(Trim(instruction) + "\n", RenderWith(m, context) + current);
    ParseUndoesRender(m, context, current);
    assert current + "" == current;
    TakeUndoesPut("\n" + opening + "\n", said + "\n", closing, "");
    assert (said + "\n")[..|said|] == said;
  }

  lemma FiveLines(a: string, b: string, c: string, d: string, e: string)
    ensures JoinLines([a, b, c, d, e]) == a + "\n" + b + "\n" + c + "\n" + d + "\n" + e
  {
    JoinFive(a, b, c, d, e);
  }

  /** The prompt of a turn: instruction, context and the visitor's words between their tags, line by line. */
  lemma TurnIsTagged(instruction: string, context: Context, text: string)
    ensures RenderTurn(instruction, context, text)
         == Trim(instruction) + "\n" + RenderWith(MARKUP, context) + "\n" + "<current_visitor_message>" + "\n"
            + Escape(Trim(text)) + "\n" + "</current_visitor_message>"
  {
    FiveLines(Trim(instruction), RenderWith(MARKUP, context), "<current_visitor_message>", Escape(Trim(text)), "</current_visitor_message>");
  }

  /** The prompt of a turn gives back the summary, the conversation and the visitor's words. */
  lemma ParseUndoesTurn(instruction: string, context: Context, text: string)
    ensures ParseTurn(RenderTurn(instruction, context, text), instruction)
         == Some((Recovered(context.summary, Lines(context.messages)), Trim(text)))
  {
    MarkupIsSound();
    ParseUndoesTurnWith(MARKUP, instruction, context, TURN_OPENING, text, TURN_CLOSING);
  }

  /** Under one instruction, equal prompts come from equal conversations: nothing can be forged. */
  lemma PromptDeterminesConversation(instruction: string, context: Context, text: string, other: Context, otherText: string)
    requires RenderTurn(instruction, context, text) == RenderTurn(instruction, other, otherText)
    ensures context.summary == other.summary && Lines(context.messages) == Lines(other.messages)
    ensures Trim(text) == Trim(otherText)
  {
    ParseUndoesTurn(instruction, context, text);
    ParseUndoesTurn(instruction, other, otherText);
  }
}
