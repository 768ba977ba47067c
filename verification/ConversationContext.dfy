/** The bounded conversation context that is rebuilt from the database for every turn. */
module ConversationContext {
  import opened Options
  import opened Text

  const MESSAGE_LIMIT: nat := 12
  const CHARACTER_MAX: nat := 12000

  datatype Role = Visitor | Assistant

  datatype ContextMessage = ContextMessage(id: string, role: Role, text: string)

  datatype Context = Context(summary: string, messages: seq<ContextMessage>)

  /** A stored message; a message without text has the empty text. */
  datatype Row = Row(id: string, fromVisitor: bool, text: string)

  // ---- What the window holds -----------------------------------------------------------------

  function Characters(messages: seq<ContextMessage>): nat {
    if messages == [] then 0 else |messages[0].text| + Characters(messages[1..])
  }

  function AsMessage(row: Row): ContextMessage {
    ContextMessage(row.id, if row.fromVisitor then Visitor else Assistant, Trim(row.text))
  }

  /** The messages that say something, oldest first. */
  function Spoken(rows: seq<Row>): seq<ContextMessage> {
    if rows == [] then []
    else if Blank(rows[|rows| - 1].text) then Spoken(rows[..|rows| - 1])
    else Spoken(rows[..|rows| - 1]) + [AsMessage(rows[|rows| - 1])]
  }

  predicate Fits(summary: string, messages: seq<ContextMessage>) {
    |messages| <= MESSAGE_LIMIT && |summary| + Characters(messages) <= CHARACTER_MAX
  }

  predicate IsSuffix<T(==)>(part: seq<T>, whole: seq<T>) {
    |part| <= |whole| && part == whole[|whole| - |part|..]
  }

  function LastRunes(value: string, max: nat): (last: string)
    ensures IsSuffix(last, value) && |last| == if |value| <= max then |value| else max
  {
    if |value| <= max then value else value[|value| - max..]
  }

  /** No suffix longer than the one that is left would fit. */
  ghost predicate NoneLonger(summary: string, spoken: seq<ContextMessage>, left: nat) {
    forall i: nat | i + left < |spoken| :: !Fits(summary, spoken[i..])
  }

  /** The window is the longest run of latest messages that fits beside the summary. */
  ghost predicate IsWindow(summary: string, spoken: seq<ContextMessage>, built: Context) {
    && built.summary == LastRunes(Trim(summary), CHARACTER_MAX)
    && IsSuffix(built.messages, spoken)
    && Fits(built.summary, built.messages)
    && NoneLonger(built.summary, spoken, |built.messages|)
  }

  lemma {:induction false} ShorterTakesLess(messages: seq<ContextMessage>, i: nat)
    requires i <= |messages|
    ensures Characters(messages[i..]) <= Characters(messages)
    decreases i
  {
    if i == 0 {
      assert messages[0..] == messages;
    } else {
      ShorterTakesLess(messages[1..], i - 1);
      assert messages[1..][i - 1..] == messages[i..];
    }
  }

  // ---- Building it ---------------------------------------------------------------------------

  method CountCharacters(messages: seq<ContextMessage>) returns (total: nat)
    ensures total == Characters(messages)
  {
    total := 0;
    for i := 0 to |messages|
      invariant total + Characters(messages[i..]) == Characters(messages)
    {
      total := total + |messages[i].text|;
      assert messages[i..][1..] == messages[i + 1..];
    }
  }

  method CollectSpoken(rows: seq<Row>) returns (items: seq<ContextMessage>)
    ensures items == Spoken(rows)
  {
    items := [];
    for i := 0 to |rows|
      invariant items == Spoken(rows[..i])
    {
      assert rows[..i + 1][..i] == rows[..i];
      TrimIsPart(rows[i].text);
      var said := Trim(rows[i].text);
      if said != "" {
        items := items + [ContextMessage(rows[i].id, if rows[i].fromVisitor then Visitor else Assistant, said)];
      }
    }
    assert rows[..|rows|] == rows;
  }

  /** Keep the last few messages, then drop the oldest while they are over the budget. */
  method DropOldest(text: string, spoken: seq<ContextMessage>) returns (items: seq<ContextMessage>)
    requires |text| <= CHARACTER_MAX
    ensures IsSuffix(items, spoken) && Fits(text, items) && NoneLonger(text, spoken, |items|)
  {
    var start: nat := if |spoken| > MESSAGE_LIMIT then |spoken| - MESSAGE_LIMIT else 0;
    items := spoken[start..];
    var total := CountCharacters(items);
    while items != [] && |text| + total > CHARACTER_MAX
      invariant start <= |spoken| && items == spoken[start..] && total == Characters(items)
      invariant |items| <= MESSAGE_LIMIT
      invariant forall i: nat | i < start :: !Fits(text, spoken[i..])
      decreases |items|
    {
      items := items[1..];
      start := start + 1;
      total := CountCharacters(items);
    }
    assert items == [] ==> Characters(items) == 0;
  }

  method Build(summary: Option<string>, rows: seq<Row>) returns (built: Context)
    ensures IsWindow(if summary.Some? then summary.value else "", Spoken(rows), built)
  {
    var text := if summary.Some? then Trim(summary.value) else "";
    var items := CollectSpoken(rows);
    if |text| > CHARACTER_MAX {
      text := LastRunes(text, CHARACTER_MAX);
    }
    items := DropOldest(text, items);
    built := Context(text, items);
  }

  // ---- What it means -------------------------------------------------------------------------

  /** There is one window: the context depends on the stored rows alone. */
  lemma WindowIsUnique(summary: string, spoken: seq<ContextMessage>, a: Context, b: Context)
    requires IsWindow(summary, spoken, a) && IsWindow(summary, spoken, b)
    ensures a == b
  {
    assert a.messages == spoken[|spoken| - |a.messages|..];
    assert b.messages == spoken[|spoken| - |b.messages|..];
  }

  ghost predicate Stored(m: ContextMessage, rows: seq<Row>) {
    exists row <- rows :: m == AsMessage(row)
  }

  lemma {:induction false} SpokenAreSpoken(rows: seq<Row>)
    ensures forall m <- Spoken(rows) :: m.text != "" && Stored(m, rows)
    decreases |rows|
  {
    if rows != [] {
      var last := rows[|rows| - 1];
      SpokenAreSpoken(rows[..|rows| - 1]);
      TrimIsPart(last.text);
      forall m <- Spoken(rows) ensures m.text != "" && Stored(m, rows) {
        if m in Spoken(rows[..|rows| - 1]) {
          var row :| row in rows[..|rows| - 1] && m == AsMessage(row);
          assert row in rows;
        } else {
          assert last in rows && m == AsMessage(last);
        }
      }
    }
  }

  /** The rows before this one that are more than white space. */
  function Speaking(rows: seq<Row>, i: nat): set<nat>
    requires i <= |rows|
  {
    set j: nat | j < i && Trim(rows[j].text) != ""
  }

  /** What is kept is the rows that say something, in their order, each with its id, its writer and its trimmed text. */
  lemma {:induction false} SpokenInOrder(rows: seq<Row>, i: nat)
    requires i < |rows| && Trim(rows[i].text) != ""
    ensures |Spoken(rows)| == |Speaking(rows, |rows|)|
    ensures var k := |Speaking(rows, i)|;
            && k < |Spoken(rows)| && Spoken(rows)[k].id == rows[i].id && Spoken(rows)[k].text == Trim(rows[i].text)
            && (Spoken(rows)[k].role == Visitor <==> rows[i].fromVisitor)
    decreases |rows|
  {
    SpokenCounts(rows);
    if i < |rows| - 1 {
      SpokenInOrder(rows[..|rows| - 1], i);
      assert Speaking(rows[..|rows| - 1], i) == Speaking(rows, i);
    } else {
      TrimIsPart(rows[i].text);
      SpokenCounts(rows[..i]);
      assert Speaking(rows[..i], i) == Speaking(rows, i);
    }
  }

  lemma {:induction false} SpokenCounts(rows: seq<Row>)
    ensures |Spoken(rows)| == |Speaking(rows, |rows|)|
    decreases |rows|
  {
    if rows != [] {
      var n := |rows| - 1;
      SpokenCounts(rows[..n]);
      TrimIsPart(rows[n].text);
      SpeakingGrows(rows, n);
    }
  }

  lemma SpeakingGrows(rows: seq<Row>, n: nat)
    requires n == |rows| - 1
    ensures |Speaking(rows, |rows|)| == |Speaking(rows[..n], n)| + if Trim(rows[n].text) != "" then 1 else 0
  {
    var before := Speaking(rows[..n], n);
    assert forall j: nat | j < n :: rows[..n][j] == rows[j];
    var after := Speaking(rows, |rows|);
    assert after - {n} == before;
    if n in after {
      assert after == before + {n};
    }
  }

  /** At most twelve messages and 12000 characters; a message is left out only if it would exceed one of the two. */
  lemma WindowIsTheLongest(summary: string, spoken: seq<ContextMessage>, built: Context)
    requires IsWindow(summary, spoken, built)
    ensures |built.messages| <= 12 && |built.summary| + Characters(built.messages) <= 12000
    ensures var n := |built.messages|;
            n < |spoken| && n < 12 ==> |built.summary| + |spoken[|spoken| - n - 1].text| + Characters(built.messages) > 12000
    ensures |Trim(summary)| <= 12000 ==> built.summary == Trim(summary)
    ensures |Trim(summary)| > 12000 ==> built.summary == Trim(summary)[|Trim(summary)| - 12000..]
  {
    var i: int := |spoken| - |built.messages| - 1;
    if i >= 0 {
      assert spoken[i..][1..] == built.messages;
      assert !Fits(built.summary, spoken[i..]);
    }
  }

  /** The latest message is kept exactly when it fits beside the summary on its own. */
  lemma LatestIsKeptExactlyWhen(summary: string, spoken: seq<ContextMessage>, built: Context)
    requires IsWindow(summary, spoken, built) && spoken != []
    ensures built.messages != [] <==> |built.summary| + |spoken[|spoken| - 1].text| <= CHARACTER_MAX
    ensures built.messages != [] ==> built.messages[|built.messages| - 1] == spoken[|spoken| - 1]
  {
    var alone := spoken[|spoken| - 1..];
    assert alone[1..] == [];
    assert Characters(alone) == |alone[0].text|;
    if built.messages != [] {
      ShorterTakesLess(built.messages, |built.messages| - 1);
      assert built.messages[|built.messages| - 1..] == alone;
    }
  }

  /** A summary that fills the budget leaves no room for any message, however short. */
  lemma FullSummaryDropsEveryMessage(summary: string, rows: seq<Row>, built: Context)
    requires IsWindow(summary, Spoken(rows), built) && |Trim(summary)| >= CHARACTER_MAX
    ensures built.messages == []
  {
    SpokenAreSpoken(rows);
    if Spoken(rows) != [] {
      LatestIsKeptExactlyWhen(summary, Spoken(rows), built);
    }
  }
}
