/**
 * Assistant versions carry a revision that stands for their configuration. An edit reads the row,
 * and writes it back in a second statement; when the revision still tells configurations apart.
 */
module VersionEdits {
  import opened Options
  import opened Text

  /** What a container is built from. */
  datatype Config = Config(prompt: string, image: string, model: string, routing: map<string, string>, skills: seq<string>)

  datatype Version = Version(name: string, description: string, config: Config, revision: nat)

  datatype Input = Input(name: string, description: string, prompt: string, image: string, model: string,
                         routing: map<string, string>)

  // ---- Routing -------------------------------------------------------------------------------

  function Normalized(routing: map<string, string>): map<string, string> {
    map slot | slot in routing && Trim(routing[slot]) != "" :: Trim(routing[slot])
  }

  function Lookup(routing: map<string, string>, slot: string): string {
    if slot in routing then routing[slot] else ""
  }

  /** As many slots, and every slot of a is the same in b; a missing slot reads as the empty text. */
  predicate JsonEqual(a: map<string, string>, b: map<string, string>) {
    |a| == |b| && forall slot <- a :: Lookup(b, slot) == a[slot]
  }

  predicate NoBlanks(routing: map<string, string>) {
    forall slot <- routing :: routing[slot] != ""
  }

  /** The slots that say something, each with its model without outer spaces. */
  ghost predicate Compacts(routing: map<string, string>, out: map<string, string>) {
    && (forall slot :: slot in out <==> slot in routing && !Blank(routing[slot]))
    && (forall slot <- out :: out[slot] == Trim(routing[slot]) && out[slot] != "")
  }

  lemma NormalizedCompacts(routing: map<string, string>)
    ensures Compacts(routing, Normalized(routing))
  {
    forall slot <- routing ensures Trim(routing[slot]) == "" <==> Blank(routing[slot]) {
      TrimIsPart(routing[slot]);
    }
  }

  method NormalizeRouting(routing: map<string, string>) returns (out: map<string, string>)
    ensures out == Normalized(routing) && NoBlanks(out) && Compacts(routing, out)
  {
    out := map[];
    var left := routing.Keys;
    while left != {}
      invariant left <= routing.Keys
      invariant out == map slot | slot in Normalized(routing) && slot !in left :: Normalized(routing)[slot]
      decreases |left|
    {
      var slot :| slot in left;
      left := left - {slot};
      if Trim(routing[slot]) != "" {
        out := out[slot := Trim(routing[slot])];
      }
    }
    NormalizedCompacts(routing);
  }

  method CompareRouting(a: map<string, string>, b: map<string, string>) returns (equal: bool)
    ensures equal == JsonEqual(a, b)
  {
    if |a| != |b| {
      return false;
    }
    var left := a.Keys;
    while left != {}
      invariant left <= a.Keys && forall slot <- a :: slot in left || Lookup(b, slot) == a[slot]
      decreases |left|
    {
      var slot :| slot in left;
      if Lookup(b, slot) != a[slot] {
        return false;
      }
      left := left - {slot};
    }
    equal := true;
  }

  lemma SameSizePart(a: set<string>, b: set<string>)
    requires a <= b && |a| == |b|
    ensures a == b
  {
    if a != b {
      var x :| x in b && x !in a;
      SubsetIsNotLarger(a + {x}, b);
    }
  }

  lemma JsonEqualIsEquality(a: map<string, string>, b: map<string, string>)
    requires NoBlanks(a)
    ensures JsonEqual(a, b) <==> a == b
  {
    if JsonEqual(a, b) {
      assert a.Keys <= b.Keys;
      SameSizePart(a.Keys, b.Keys);
    }
  }

  lemma {:induction false} UnusedSlot(used: set<string>) returns (slot: string)
    ensures slot !in used
  {
    var longest: nat := 0;
    var left := used;
    while left != {}
      invariant left <= used && forall s <- used :: s in left || |s| <= longest
      decreases |left|
    {
      var s :| s in left;
      left := left - {s};
      longest := if |s| > longest then |s| else longest;
    }
    slot := seq(longest + 1, _ => 'x');
    assert |slot| > longest;
  }

  /** The comparison is equality of routings exactly for those without an empty value. */
  lemma JsonEqualIsEqualityExactlyWhen(a: map<string, string>)
    ensures (forall b :: JsonEqual(a, b) <==> a == b) <==> NoBlanks(a)
  {
    if NoBlanks(a) {
      forall b ensures JsonEqual(a, b) <==> a == b {
        JsonEqualIsEquality(a, b);
      }
    } else {
      var slot :| slot in a && a[slot] == "";
      var other := UnusedSlot(a.Keys);
      var b := (a - {slot})[other := "x"];
      assert b.Keys == a.Keys - {slot} + {other};
      assert |b.Keys| == |a.Keys|;
      assert JsonEqual(a, b) && a != b;
    }
  }

  // ---- One edit ------------------------------------------------------------------------------

  /** What the deployment offers: images by id with their references, models, and the slots that may be routed. */
  datatype Catalogue = Catalogue(images: map<string, string>, models: set<string>, slots: set<string>)

  predicate Acceptable(c: Catalogue, input: Input) {
    && Trim(input.name) != "" && Trim(input.prompt) != ""
    && Trim(input.image) in c.images && Trim(input.model) != "" && Trim(input.model) in c.models
    && forall slot <- input.routing ::
         slot in c.slots && (Trim(input.routing[slot]) == "" || Trim(input.routing[slot]) in c.models)
  }

  /** Name and prompt say something, image and main model are offered, and so is every routed slot with its model. */
  predicate IsOffered(c: Catalogue, input: Input) {
    && !Blank(input.name) && !Blank(input.prompt) && !Blank(input.model)
    && Trim(input.image) in c.images && Trim(input.model) in c.models
    && forall slot <- input.routing :: slot in c.slots && (!Blank(input.routing[slot]) ==> Trim(input.routing[slot]) in c.models)
  }

  lemma AcceptableIsOffered(c: Catalogue, input: Input)
    ensures Acceptable(c, input) <==> IsOffered(c, input)
  {
    TrimIsPart(input.name);
    TrimIsPart(input.prompt);
    TrimIsPart(input.model);
    forall slot <- input.routing ensures Trim(input.routing[slot]) == "" <==> Blank(input.routing[slot]) {
      TrimIsPart(input.routing[slot]);
    }
  }

  predicate Changed(v: Version, input: Input) {
    || v.config.prompt != input.prompt || v.config.image != Trim(input.image) || v.config.model != Trim(input.model)
    || !JsonEqual(v.config.routing, Normalized(input.routing))
  }

  /** The whole row as worked out from the one that was read. */
  function Updated(v: Version, input: Input): Version {
    Version(Trim(input.name), Trim(input.description),
            Config(input.prompt, Trim(input.image), Trim(input.model), Normalized(input.routing), v.config.skills),
            if Changed(v, input) then v.revision + 1 else v.revision)
  }

  function WithSkills(v: Version, skills: seq<string>, revision: nat): Version {
    v.(config := v.config.(skills := skills), revision := revision)
  }

  function Created(input: Input): Version {
    Version(Trim(input.name), Trim(input.description),
            Config(input.prompt, Trim(input.image), Trim(input.model), Normalized(input.routing), []), 1)
  }

  ghost predicate RowOk(v: Version) {
    v.revision >= 1 && NoBlanks(v.config.routing) && Trimmed(v.config.image)
  }

  lemma CreatedIsOk(input: Input)
    ensures RowOk(Created(input))
  {
    TrimIsPart(input.image);
  }

  /** Worked out from the current row, the revision moves exactly when something a container is built from changes. */
  lemma BumpedExactlyWhenChanged(v: Version, input: Input)
    requires NoBlanks(v.config.routing)
    ensures Updated(v, input).revision == v.revision <==> Updated(v, input).config == v.config
    ensures v.revision <= Updated(v, input).revision <= v.revision + 1
  {
    JsonEqualIsEquality(v.config.routing, Normalized(input.routing));
  }

  /** The row as an update leaves it that read v: every field of the input, the skills of v, and one revision more for another configuration. */
  ghost predicate Writes(v: Version, input: Input, w: Version) {
    && w.name == Trim(input.name) && w.description == Trim(input.description)
    && w.config.prompt == input.prompt && w.config.image == Trim(input.image) && w.config.model == Trim(input.model)
    && Compacts(input.routing, w.config.routing) && w.config.skills == v.config.skills
    && (NoBlanks(v.config.routing) ==> w.revision == if w.config == v.config then v.revision else v.revision + 1)
  }

  lemma UpdatedWrites(v: Version, input: Input)
    ensures Writes(v, input, Updated(v, input))
  {
    NormalizedCompacts(input.routing);
    if NoBlanks(v.config.routing) {
      BumpedExactlyWhenChanged(v, input);
    }
  }

  /** The revision has not fallen, and is the same only with the configuration. */
  predicate Precedes(v: Version, w: Version) {
    v.revision <= w.revision && (v.revision == w.revision ==> v.config == w.config)
  }

  /** A later row: the revision has not fallen, and stays only with the configuration. */
  ghost predicate Follows(v: Version, w: Version) {
    Precedes(v, w) && (RowOk(v) ==> RowOk(w))
  }

  lemma EditFollows(v: Version, input: Input, skills: seq<string>)
    requires RowOk(v)
    ensures Follows(v, Updated(v, input)) && Follows(v, WithSkills(v, skills, v.revision + 1))
  {
    BumpedExactlyWhenChanged(v, input);
    TrimIsPart(input.image);
  }

  // ---- One row and the edits of it -----------------------------------------------------------

  /** A row, what the edits under way have read of it, which of them another edit has overtaken, and every state it has had. */
  datatype Desk = Desk(row: Version, open: map<nat, Version>, stale: set<nat>, past: seq<Version>)

  datatype Move = Read(edit: nat) | Put(edit: nat, input: Input) | PutSkills(edit: nat, skills: seq<string>)

  function NewDesk(input: Input): Desk {
    Desk(Created(input), map[], {}, [Created(input)])
  }

  function Land(d: Desk, edit: nat, row: Version): Desk {
    Desk(row, d.open - {edit}, d.open.Keys - {edit}, d.past + [row])
  }

  /** An update writes every field as it was worked out; a change of skills writes skills and revision only. */
  function Act(d: Desk, m: Move): Desk {
    match m
    case Read(edit) => d.(open := d.open[edit := d.row], stale := d.stale - {edit})
    case Put(edit, input) => if edit !in d.open then d else Land(d, edit, Updated(d.open[edit], input))
    case PutSkills(edit, skills) =>
      if edit !in d.open then d else Land(d, edit, WithSkills(d.row, skills, d.open[edit].revision + 1))
  }

  function Work(d: Desk, moves: seq<Move>): Desk {
    if moves == [] then d else Act(Work(d, moves[..|moves| - 1]), moves[|moves| - 1])
  }

  /** The move writes nothing, or no other edit has written since it read. */
  predicate Timely(d: Desk, m: Move) {
    !m.Read? && m.edit in d.open ==> m.edit !in d.stale
  }

  predicate Serial(d: Desk, moves: seq<Move>) {
    moves == [] || (Serial(d, moves[..|moves| - 1]) && Timely(Work(d, moves[..|moves| - 1]), moves[|moves| - 1]))
  }

  /** Of any two states of the row, equal revisions mean equal configurations. */
  ghost predicate ToldApart(past: seq<Version>) {
    forall i, j | 0 <= i < j < |past| && past[i].revision == past[j].revision :: past[i].config == past[j].config
  }

  // ---- Serial edits are told apart -----------------------------------------------------------

  ghost predicate DeskOk(d: Desk) {
    && RowOk(d.row) && ToldApart(d.past)
    && (forall i | 0 <= i < |d.past| :: Precedes(d.past[i], d.row))
    && (forall e <- d.open | e !in d.stale :: d.open[e] == d.row)
  }

  lemma LandKeepsDeskOk(d: Desk, edit: nat, row: Version)
    requires DeskOk(d) && Follows(d.row, row)
    ensures DeskOk(Land(d, edit, row))
  {
    var past := Land(d, edit, row).past;
    forall i | 0 <= i < |past| ensures Precedes(past[i], row) {
      assert i < |d.past| ==> past[i] == d.past[i] && Precedes(d.past[i], d.row);
    }
  }

  lemma ActKeepsDeskOk(d: Desk, m: Move)
    requires DeskOk(d) && Timely(d, m)
    ensures DeskOk(Act(d, m)) && Follows(d.row, Act(d, m).row)
  {
    match m
    case Read(edit) =>
    case Put(edit, input) =>
      if edit in d.open {
        EditFollows(d.row, input, []);
        LandKeepsDeskOk(d, edit, Updated(d.row, input));
      }
    case PutSkills(edit, skills) =>
      if edit in d.open {
        EditFollows(d.row, Input("", "", "", "", "", map[]), skills);
        LandKeepsDeskOk(d, edit, WithSkills(d.row, skills, d.row.revision + 1));
      }
  }

  lemma {:induction false} SerialWorkIsOk(d: Desk, moves: seq<Move>)
    requires DeskOk(d) && Serial(d, moves)
    ensures DeskOk(Work(d, moves)) && Follows(d.row, Work(d, moves).row)
    decreases |moves|
  {
    if moves != [] {
      SerialWorkIsOk(d, moves[..|moves| - 1]);
      ActKeepsDeskOk(Work(d, moves[..|moves| - 1]), moves[|moves| - 1]);
    }
  }

  // ---- Edits that overlap are not ------------------------------------------------------------

  /** The same reads and writes by the same edits, with whatever contents. */
  predicate Alike(m: Move, n: Move) {
    m.edit == n.edit && m.Read? == n.Read? && m.Put? == n.Put?
  }

  predicate SameShape(a: seq<Move>, b: seq<Move>) {
    |a| == |b| && forall i | 0 <= i < |a| :: Alike(a[i], b[i])
  }

  predicate AllAcceptable(c: Catalogue, moves: seq<Move>) {
    forall m <- moves | m.Put? :: Acceptable(c, m.input)
  }

  /** Who has read and who is stale does not depend on what is written. */
  predicate SameOpen(d: Desk, e: Desk) {
    d.open.Keys == e.open.Keys && d.stale == e.stale
  }

  lemma ActsAlike(d: Desk, e: Desk, m: Move, n: Move)
    requires SameOpen(d, e) && Alike(m, n)
    ensures SameOpen(Act(d, m), Act(e, n)) && Timely(d, m) == Timely(e, n)
  {
  }

  lemma {:induction false} ShapeDecides(d: Desk, e: Desk, a: seq<Move>, b: seq<Move>)
    requires SameOpen(d, e) && SameShape(a, b)
    ensures SameOpen(Work(d, a), Work(e, b)) && Serial(d, a) == Serial(e, b)
    decreases |a|
  {
    if a != [] {
      var n := |a| - 1;
      ShapeDecides(d, e, a[..n], b[..n]);
      ActsAlike(Work(d, a[..n]), Work(e, b[..n]), a[n], b[n]);
    }
  }

  /** Contents that nobody wrote before: every write is longer than all earlier ones. */
  function Fresh(first: Input, m: Move, i: nat): Move {
    match m
    case Read(_) => m
    case Put(edit, _) => Put(edit, first.(prompt := first.prompt + seq(i + 1, _ => 'x')))
    case PutSkills(edit, _) => PutSkills(edit, seq(i + 1, _ => "x"))
  }

  function AllFresh(first: Input, moves: seq<Move>): seq<Move> {
    seq(|moves|, i requires 0 <= i < |moves| => Fresh(first, moves[i], i))
  }

  lemma PromptIsNotBlank(prompt: string, i: nat)
    ensures Trim(prompt + seq(i + 1, _ => 'x')) != ""
  {
    var longer := prompt + seq(i + 1, _ => 'x');
    assert longer[|prompt|] == 'x' && !IsSpace('x');
    TrimIsPart(longer);
  }

  lemma FreshIsAcceptable(c: Catalogue, first: Input, moves: seq<Move>)
    requires Acceptable(c, first)
    ensures SameShape(moves, AllFresh(first, moves)) && AllAcceptable(c, AllFresh(first, moves))
  {
    forall m <- AllFresh(first, moves) | m.Put? ensures Acceptable(c, m.input) {
      var i :| 0 <= i < |moves| && m == Fresh(first, moves[i], i);
      PromptIsNotBlank(first.prompt, i);
    }
  }

  /** What is on the desk is no longer than what the first i moves could have written. */
  predicate Short(first: Input, i: nat, v: Version) {
    |v.config.prompt| <= |first.prompt| + i && |v.config.skills| <= i
  }

  /** A row of the past carries the revision that the edit would write. */
  ghost predicate Overtaken(d: Desk, e: nat)
    requires e in d.open
  {
    exists k :: 0 <= k < |d.past| && d.past[k].revision == d.open[e].revision + 1
  }

  ghost predicate Prepared(first: Input, i: nat, d: Desk) {
    && Short(first, i, d.row) && (forall v <- d.past :: Short(first, i, v))
    && (forall e <- d.open :: Short(first, i, d.open[e]))
    && (forall e <- d.open :: if e in d.stale then Overtaken(d, e) else d.open[e] == d.row)
  }

  lemma LandIsPrepared(first: Input, i: nat, d: Desk, edit: nat, row: Version)
    requires Prepared(first, i, d) && edit in d.open && Short(first, i + 1, row)
    requires row.revision == d.open[edit].revision + 1 && edit !in d.stale
    ensures Prepared(first, i + 1, Land(d, edit, row))
  {
    var t := Land(d, edit, row);
    forall v <- t.past ensures Short(first, i + 1, v) {
      assert v in d.past || v == row;
    }
    forall e <- t.open ensures Overtaken(t, e) {
      if e in d.stale {
        var k :| 0 <= k < |d.past| && d.past[k].revision == d.open[e].revision + 1;
        assert t.past[k] == d.past[k];
      } else {
        assert t.past[|d.past|] == row;
      }
    }
  }

  lemma FreshWrites(first: Input, i: nat, d: Desk, m: Move)
    requires Prepared(first, i, d) && !m.Read? && m.edit in d.open
    ensures var t := Act(d, Fresh(first, m, i));
            && t == Land(d, m.edit, t.row) && Short(first, i + 1, t.row) && !Short(first, i, t.row)
            && t.row.revision == d.open[m.edit].revision + 1
  {
  }

  lemma ActIsPrepared(first: Input, i: nat, d: Desk, m: Move)
    requires Prepared(first, i, d) && Timely(d, m)
    ensures Prepared(first, i + 1, Act(d, Fresh(first, m, i)))
  {
    if !m.Read? && m.edit in d.open {
      FreshWrites(first, i, d, m);
      LandIsPrepared(first, i, d, m.edit, Act(d, Fresh(first, m, i)).row);
    } else {
      OvertakenByReads(first, i, d, m);
    }
  }

  lemma OvertakenByReads(first: Input, i: nat, d: Desk, m: Move)
    requires Prepared(first, i, d) && (m.Read? || m.edit !in d.open)
    ensures Prepared(first, i + 1, Act(d, Fresh(first, m, i)))
  {
    var t := Act(d, Fresh(first, m, i));
    forall e <- t.open ensures if e in t.stale then Overtaken(t, e) else t.open[e] == t.row {
      if e in t.stale {
        var k :| 0 <= k < |d.past| && d.past[k].revision == d.open[e].revision + 1;
        assert t.past[k] == d.past[k];
      }
    }
  }

  /** A stale write lands on a revision that another configuration already has. */
  lemma StaleWriteCollides(first: Input, i: nat, d: Desk, m: Move)
    requires Prepared(first, i, d) && !Timely(d, m)
    ensures !ToldApart(Act(d, Fresh(first, m, i)).past)
  {
    FreshWrites(first, i, d, m);
    var t := Act(d, Fresh(first, m, i));
    var k :| 0 <= k < |d.past| && d.past[k].revision == d.open[m.edit].revision + 1;
    assert d.past[k] in d.past && t.past[k] == d.past[k] && t.past[|d.past|] == t.row;
  }

  lemma ActKeepsPast(d: Desk, m: Move)
    ensures d.past <= Act(d, m).past
  {
  }

  lemma {:induction false} FreshWork(first: Input, moves: seq<Move>)
    ensures var tagged := AllFresh(first, moves);
            if Serial(NewDesk(first), tagged) then Prepared(first, |moves|, Work(NewDesk(first), tagged))
            else !ToldApart(Work(NewDesk(first), tagged).past)
    decreases |moves|
  {
    if moves != [] {
      var n := |moves| - 1;
      var tagged := AllFresh(first, moves);
      assert tagged[..n] == AllFresh(first, moves[..n]);
      FreshWork(first, moves[..n]);
      var d := Work(NewDesk(first), tagged[..n]);
      if !Serial(NewDesk(first), tagged[..n]) {
        ActKeepsPast(d, tagged[n]);
        CollisionsStay(d.past, Act(d, tagged[n]).past);
      } else if Timely(d, moves[n]) {
        ActIsPrepared(first, n, d, moves[n]);
      } else {
        StaleWriteCollides(first, n, d, moves[n]);
      }
    }
  }

  lemma CollisionsStay(past: seq<Version>, more: seq<Version>)
    requires past <= more && !ToldApart(past)
    ensures !ToldApart(more)
  {
    var i, j :| 0 <= i < j < |past| && past[i].revision == past[j].revision && past[i].config != past[j].config;
    assert more[i] == past[i] && more[j] == past[j];
  }

  /**
   * Equal revisions mean equal configurations, whatever acceptable contents are written, exactly
   * when no write of the row lands between another edit's read and its write.
   */
  lemma ToldApartExactlyWhenSerial(c: Catalogue, first: Input, moves: seq<Move>)
    requires Acceptable(c, first)
    ensures (forall others :: SameShape(moves, others) && AllAcceptable(c, others) ==> ToldApart(Work(NewDesk(first), others).past))
            <==> Serial(NewDesk(first), moves)
  {
    CreatedIsOk(first);
    if Serial(NewDesk(first), moves) {
      forall others | SameShape(moves, others) ensures ToldApart(Work(NewDesk(first), others).past) {
        ShapeDecides(NewDesk(first), NewDesk(first), moves, others);
        SerialWorkIsOk(NewDesk(first), others);
      }
    } else {
      var tagged := AllFresh(first, moves);
      FreshIsAcceptable(c, first, moves);
      ShapeDecides(NewDesk(first), NewDesk(first), moves, tagged);
      FreshWork(first, moves);
      assert SameShape(moves, tagged);
    }
  }

  // ---- Two races -----------------------------------------------------------------------------

  /** A new name, worked out before another edit, puts the row back, and the next edit reuses the revision. */
  function RenameRace(first: Input, name: string): seq<Move> {
    [Read(0), Read(1), Put(1, first.(prompt := first.prompt + "x")), Put(0, first.(name := name)),
     Read(2), Put(2, first.(prompt := first.prompt + "xx"))]
  }

  /** The first edit and the last one share a revision, and a rename that put it back lies between them. */
  ghost predicate RolledBack(past: seq<Version>) {
    && |past| == 4 && past[1].revision == past[3].revision == 2 && past[2].revision == 1
    && past[1].config != past[3].config && past[2].config == past[0].config
  }

  lemma RenameRollsBack(first: Input, name: string)
    ensures RolledBack(Work(NewDesk(first), RenameRace(first, name)).past)
  {
    var moves := RenameRace(first, name);
    RenameOvertakes(first, name);
    LastTwo(NewDesk(first), moves, 4);
    NextEditReuses(Work(NewDesk(first), moves[..4]), first);
  }

  lemma LastTwo(d: Desk, moves: seq<Move>, n: nat)
    requires |moves| == n + 2
    ensures Work(d, moves) == Act(Act(Work(d, moves[..n]), moves[n]), moves[n + 1])
  {
    WorkOne(d, moves, n + 1);
    WorkOne(d, moves, n + 2);
    assert moves[..n + 2] == moves;
  }

  lemma NextEditReuses(d: Desk, first: Input)
    requires |d.past| == 3 && d.row == d.past[2] && d.past[1].revision == 2 && d.past[2].revision == 1
    requires d.past[1].config.prompt == first.prompt + "x" && d.past[2].config.prompt == first.prompt
    requires d.past[2].config == d.past[0].config
    ensures RolledBack(Act(Act(d, Read(2)), Put(2, first.(prompt := first.prompt + "xx"))).past)
  {
    var t := Act(Act(d, Read(2)), Put(2, first.(prompt := first.prompt + "xx")));
    assert |first.prompt + "xx"| != |first.prompt| && |first.prompt + "xx"| != |first.prompt + "x"|;
    assert t.past == d.past + [t.row];
  }

  lemma RenameOvertakes(first: Input, name: string)
    ensures var d := Work(NewDesk(first), RenameRace(first, name)[..4]);
            && |d.past| == 3 && d.row == d.past[2]
            && d.past[1].revision == 2 && d.past[1].config.prompt == first.prompt + "x"
            && d.past[2].revision == 1 && d.past[2].config == d.past[0].config && d.past[2].config.prompt == first.prompt
  {
    TrimTwice(first);
    OneWaits(first, name);
    WorkOne(NewDesk(first), RenameRace(first, name), 4);
  }

  lemma OneWaits(first: Input, name: string)
    ensures var v, d := Created(first), Work(NewDesk(first), RenameRace(first, name)[..3]);
            && d.row.revision == 2 && d.row.config.prompt == first.prompt + "x"
            && d == Desk(d.row, map[0 := v], {0}, [v, d.row])
  {
    var moves, v := RenameRace(first, name), Created(first);
    LastTwo(NewDesk(first), moves[..2], 0);
    TwoRead(v);
    WorkOne(NewDesk(first), moves, 3);
    FirstLands(v, first.(prompt := first.prompt + "x"));
  }

  lemma TwoRead(v: Version)
    ensures Act(Act(Desk(v, map[], {}, [v]), Read(0)), Read(1)) == Desk(v, map[0 := v, 1 := v], {}, [v])
  {
  }

  lemma FirstLands(v: Version, input: Input)
    requires v.config.prompt != input.prompt
    ensures Act(Desk(v, map[0 := v, 1 := v], {}, [v]), Put(1, input)) == Desk(Updated(v, input), map[0 := v], {0}, [v, Updated(v, input)])
    ensures Updated(v, input).revision == v.revision + 1 && Updated(v, input).config.prompt == input.prompt
  {
  }

  lemma TrimTwice(first: Input)
    ensures JsonEqual(Created(first).config.routing, Normalized(first.routing))
  {
    JsonEqualIsEquality(Created(first).config.routing, Normalized(first.routing));
  }

  lemma WorkOne(d: Desk, moves: seq<Move>, n: nat)
    requires 0 < n <= |moves|
    ensures Work(d, moves[..n]) == Act(Work(d, moves[..n - 1]), moves[n - 1])
  {
    assert moves[..n][..n - 1] == moves[..n - 1];
  }

  /** An update that read the row before a skill was added drops the skill again, under one and the same revision. */
  function SkillsRace(first: Input, skill: string): seq<Move> {
    [Read(0), Read(1), PutSkills(1, [skill]), Put(0, first.(prompt := first.prompt + "x"))]
  }

  lemma UpdateDropsSkill(first: Input, skill: string)
    ensures var past := Work(NewDesk(first), SkillsRace(first, skill)).past;
            && |past| == 3 && past[1].revision == past[2].revision == 2
            && past[1].config.skills == [skill] && past[2].config.skills == []
  {
    var moves := SkillsRace(first, skill);
    WorkOne(NewDesk(first), moves, 1);
    WorkOne(NewDesk(first), moves, 2);
    WorkOne(NewDesk(first), moves, 3);
    WorkOne(NewDesk(first), moves, 4);
    assert moves[..4] == moves;
  }
}
