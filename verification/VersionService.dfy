/** The methods that edit a version: each reads its row, and writes it in a later statement. */
module VersionService {
  import opened Options
  import opened Text
  import opened VersionEdits

  /** One statement on one row. */
  datatype Step = Step(id: string, move: Move)

  predicate InUse(desks: map<string, Desk>, id: string, name: string) {
    exists other <- desks :: other != id && desks[other].row.name == name
  }

  /** The unique key on names refuses an update that would give a row the name of another one. */
  predicate Clashes(desks: map<string, Desk>, step: Step) {
    step.move.Put? && InUse(desks, step.id, Trim(step.move.input.name))
  }

  predicate Lands(desks: map<string, Desk>, step: Step) {
    step.id in desks && !Clashes(desks, step)
  }

  function Moved(desks: map<string, Desk>, step: Step): map<string, Desk> {
    if Lands(desks, step) then desks[step.id := Act(desks[step.id], step.move)] else desks
  }

  function AllMoved(desks: map<string, Desk>, steps: seq<Step>): map<string, Desk> {
    if steps == [] then desks else Moved(AllMoved(desks, steps[..|steps| - 1]), steps[|steps| - 1])
  }

  /** The moves of one row, without those that the unique key refused. */
  function MovesOf(desks: map<string, Desk>, steps: seq<Step>, id: string): seq<Move> {
    if steps == [] then []
    else
      var before, last := steps[..|steps| - 1], steps[|steps| - 1];
      MovesOf(desks, before, id) + if last.id == id && !Clashes(AllMoved(desks, before), last) then [last.move] else []
  }

  /** What happens to one row is the work of the moves of that row. */
  lemma {:induction false} RowWorksAlone(desks: map<string, Desk>, steps: seq<Step>, id: string)
    requires id in desks
    ensures id in AllMoved(desks, steps) && AllMoved(desks, steps)[id] == Work(desks[id], MovesOf(desks, steps, id))
    decreases |steps|
  {
    if steps != [] {
      var before, last := steps[..|steps| - 1], steps[|steps| - 1];
      RowWorksAlone(desks, before, id);
      var moves := MovesOf(desks, steps, id);
      if last.id == id && !Clashes(AllMoved(desks, before), last) {
        assert moves[..|moves| - 1] == MovesOf(desks, before, id);
      } else {
        assert moves == MovesOf(desks, before, id);
      }
    }
  }

  ghost predicate NamesAreUnique(desks: map<string, Desk>) {
    forall a, b | a in desks && b in desks && desks[a].row.name == desks[b].row.name :: a == b
  }

  lemma MovedKeepsNames(desks: map<string, Desk>, step: Step)
    requires NamesAreUnique(desks)
    ensures NamesAreUnique(Moved(desks, step))
  {
    if Lands(desks, step) {
      var row := Act(desks[step.id], step.move).row;
      assert row.name != desks[step.id].row.name ==> step.move.Put? && row.name == Trim(step.move.input.name);
    }
  }

  /** Over all edits of all rows names stay unique, although every edit checks its name before others write. */
  lemma {:induction false} NamesStayUnique(desks: map<string, Desk>, steps: seq<Step>)
    requires NamesAreUnique(desks)
    ensures NamesAreUnique(AllMoved(desks, steps))
    decreases |steps|
  {
    if steps != [] {
      NamesStayUnique(desks, steps[..|steps| - 1]);
      MovedKeepsNames(AllMoved(desks, steps[..|steps| - 1]), steps[|steps| - 1]);
    }
  }

  lemma {:induction false} MovedInTwo(desks: map<string, Desk>, a: seq<Step>, b: seq<Step>)
    ensures AllMoved(desks, a + b) == AllMoved(AllMoved(desks, a), b)
    decreases |b|
  {
    if b == [] {
      assert a + b == a;
    } else {
      MovedInTwo(desks, a, b[..|b| - 1]);
      assert (a + b)[..|a + b| - 1] == a + b[..|b| - 1];
    }
  }

  /** The steps are other edits'. */
  predicate Foreign(steps: seq<Step>, edit: nat) {
    forall i | 0 <= i < |steps| :: steps[i].move.edit != edit
  }

  /** What an edit read is kept for it, whatever the others do. */
  lemma {:induction false} ReadIsKept(desks: map<string, Desk>, steps: seq<Step>, id: string, edit: nat)
    requires id in desks && edit in desks[id].open && Foreign(steps, edit)
    ensures var d := AllMoved(desks, steps); id in d && edit in d[id].open && d[id].open[edit] == desks[id].open[edit]
    decreases |steps|
  {
    if steps != [] {
      ReadIsKept(desks, steps[..|steps| - 1], id, edit);
    }
  }

  // ---- What an edit comes to -----------------------------------------------------------------

  datatype EditError = Invalid | NotFound | KnowledgeMissing | NameTaken | WriteFailed | SkillUnknown | SkillNameTaken

  /** Another version goes by that name. */
  predicate HasOther(desks: map<string, Desk>, id: string, name: string) {
    exists other <- desks.Keys - {id} :: desks[other].row.name == name
  }

  lemma OthersAreInUse(desks: map<string, Desk>, id: string, name: string)
    ensures InUse(desks, id, name) <==> HasOther(desks, id, name)
  {
    if other :| other in desks && other != id && desks[other].row.name == name {
      assert other in desks.Keys - {id};
    }
  }

  /**
    What an update comes to, by the row it read, the names in use when it looked, and those in use
    when it wrote: the refusals in their order, then the failing transaction.
  */
  ghost predicate EndsAs(c: Catalogue, read: map<string, Desk>, named: map<string, Desk>, written: map<string, Desk>, id: string,
                         input: Input, knowledge: bool, basesFail: bool, error: Option<EditError>) {
    match error
    case Some(Invalid) => !IsOffered(c, input)
    case Some(NotFound) => IsOffered(c, input) && id !in read
    case Some(KnowledgeMissing) => IsOffered(c, input) && id in read && !knowledge
    case Some(NameTaken) =>
      && IsOffered(c, input) && id in read && knowledge
      && Trim(input.name) != read[id].row.name && HasOther(named, id, Trim(input.name))
    case Some(WriteFailed) =>
      && IsOffered(c, input) && id in read && knowledge
      && (Trim(input.name) == read[id].row.name || !HasOther(named, id, Trim(input.name)))
      && (basesFail || HasOther(written, id, Trim(input.name)))
    case None =>
      && IsOffered(c, input) && id in read && knowledge
      && (Trim(input.name) == read[id].row.name || !HasOther(named, id, Trim(input.name)))
      && !basesFail && !HasOther(written, id, Trim(input.name))
    case _ => false
  }

  function Without(skills: seq<string>, skill: string): (kept: seq<string>)
    ensures forall s :: s in kept <==> s in skills && s != skill
  {
    if skills == [] then []
    else Without(skills[..|skills| - 1], skill) + if skills[|skills| - 1] == skill then [] else [skills[|skills| - 1]]
  }

  /** The other skills stay in their order, however the list is cut. */
  lemma {:induction false} WithoutInParts(a: seq<string>, b: seq<string>, skill: string)
    ensures Without(a + b, skill) == Without(a, skill) + Without(b, skill)
    ensures skill !in a ==> Without(a, skill) == a
    decreases |a| + |b|
  {
    if b != [] {
      var n := |b| - 1;
      assert (a + b)[..|a| + n] == a + b[..n];
      WithoutInParts(a, b[..n], skill);
    } else {
      assert a + b == a;
      if a != [] {
        var n := |a| - 1;
        WithoutInParts(a[..n], [], skill);
        assert a == a[..n] + [a[n]];
      }
    }
  }

  /** What the others did before the read, between read and name check or write, and before the write. */
  datatype Gaps = Gaps(first: seq<Step>, second: seq<Step>, third: seq<Step>)

  predicate AllForeign(g: Gaps, edit: nat) {
    Foreign(g.first, edit) && Foreign(g.second, edit) && Foreign(g.third, edit)
  }

  function ThenRead(g: Gaps, id: string, edit: nat): seq<Step> {
    g.first + [Step(id, Read(edit))] + g.second
  }

  lemma ReadInTwo(desks: map<string, Desk>, g: Gaps, id: string, edit: nat)
    ensures AllMoved(desks, ThenRead(g, id, edit)) == AllMoved(AllMoved(desks, g.first), [Step(id, Read(edit))] + g.second)
  {
    MovedInTwo(desks, g.first, [Step(id, Read(edit))] + g.second);
    assert g.first + ([Step(id, Read(edit))] + g.second) == ThenRead(g, id, edit);
  }

  lemma WriteInTwo(desks: map<string, Desk>, read: seq<Step>, third: seq<Step>, write: Step)
    ensures AllMoved(desks, read + third) == AllMoved(AllMoved(desks, read), third)
    ensures AllMoved(desks, read + third + [write]) == AllMoved(AllMoved(desks, read), third + [write])
  {
    MovedInTwo(desks, read, third);
    MovedInTwo(desks, read, third + [write]);
    assert read + (third + [write]) == read + third + [write];
  }

  class VersionService {
    const catalogue: Catalogue
    var desks: map<string, Desk>
    /** What the other edits do, each time this one lets them. */
    var schedule: seq<seq<Step>>

    constructor (catalogue: Catalogue, schedule: seq<seq<Step>>)
      ensures this.catalogue == catalogue && this.schedule == schedule && desks == map[]
    {
      this.catalogue, this.schedule, desks := catalogue, schedule, map[];
    }

    /** Nobody else goes by the number of this edit. */
    ghost predicate Own(edit: nat)
      reads this
    {
      forall i | 0 <= i < |schedule| :: Foreign(schedule[i], edit)
    }

    method Others(ghost edit: nat) returns (ghost steps: seq<Step>)
      requires Own(edit)
      modifies this
      ensures Own(edit) && Foreign(steps, edit) && desks == AllMoved(old(desks), steps)
    {
      steps := [];
      if schedule != [] {
        var turn := schedule[0];
        schedule := schedule[1..];
        steps := turn;
        assert turn[..0] == [] && turn[..|turn|] == turn;
        for i := 0 to |turn|
          invariant desks == AllMoved(old(desks), turn[..i]) && schedule == old(schedule)[1..]
        {
          assert turn[..i + 1][..i] == turn[..i];
          desks := Moved(desks, turn[i]);
        }
      }
    }

    /**
      Edit a version: validated first, then read, checked for its name, and written as a whole row.
      What it does to the rows is one read and, unless it is refused, one write, among what others do.
    */
    method Update(id: string, edit: nat, input: Input, knowledge: bool, basesFail: bool) returns (error: Option<EditError>, ghost g: Gaps)
      requires Own(edit)
      modifies this
      ensures Own(edit) && AllForeign(g, edit)
      ensures var read, named := AllMoved(old(desks), g.first), AllMoved(old(desks), ThenRead(g, id, edit));
              var written := AllMoved(old(desks), ThenRead(g, id, edit) + g.third);
              && EndsAs(catalogue, read, named, written, id, input, knowledge, basesFail, error)
              && (error == Some(Invalid) || error == Some(NotFound) ==> desks == read)
              && (error == Some(KnowledgeMissing) || error == Some(NameTaken) ==> desks == named)
              && (error == Some(WriteFailed) ==> desks == written)
              && (error.None? ==>
                    && desks == AllMoved(old(desks), ThenRead(g, id, edit) + g.third + [Step(id, Put(edit, input))])
                    && id in desks && desks.Keys == written.Keys && Writes(read[id].row, input, desks[id].row)
                    && forall other <- desks | other != id :: desks[other] == written[other])
    {
      g := Gaps([], [], []);
      AcceptableIsOffered(catalogue, input);
      var ok := Validate(input);
      if !ok {
        return Some(Invalid), g;
      }
      ghost var steps := Others(edit);
      g := Gaps(steps, [], []);
      if id !in desks {
        return Some(NotFound), g;
      }
      var current;
      current, steps := ReadRow(id, edit);
      g := Gaps(g.first, steps, []);
      ReadInTwo(old(desks), g, id, edit);
      if !knowledge {
        return Some(KnowledgeMissing), g;
      }
      OthersAreInUse(desks, id, Trim(input.name));
      if Trim(input.name) != current.name && InUse(desks, id, Trim(input.name)) {
        return Some(NameTaken), g;
      }
      error, steps := WriteRow(id, edit, current, input, basesFail);
      g := Gaps(g.first, g.second, steps);
      WriteInTwo(old(desks), ThenRead(g, id, edit), g.third, Step(id, Put(edit, input)));
    }

    method ReadRow(id: string, edit: nat) returns (current: Version, ghost steps: seq<Step>)
      requires Own(edit) && id in desks
      modifies this
      ensures Own(edit) && Foreign(steps, edit) && desks == AllMoved(old(desks), [Step(id, Read(edit))] + steps)
      ensures current == old(desks)[id].row && id in desks && edit in desks[id].open && desks[id].open[edit] == current
    {
      current := desks[id].row;
      desks := Moved(desks, Step(id, Read(edit)));
      ghost var read := desks;
      assert [Step(id, Read(edit))][..0] == [];
      steps := Others(edit);
      MovedInTwo(old(desks), [Step(id, Read(edit))], steps);
      ReadIsKept(read, steps, id, edit);
    }

    /** The transaction of an update: row and knowledge bases, or nothing. */
    method WriteRow(id: string, edit: nat, current: Version, input: Input, basesFail: bool)
      returns (error: Option<EditError>, ghost steps: seq<Step>)
      requires Own(edit) && id in desks && edit in desks[id].open && desks[id].open[edit] == current
      modifies this
      ensures Own(edit) && Foreign(steps, edit)
      ensures error == if basesFail || HasOther(AllMoved(old(desks), steps), id, Trim(input.name)) then Some(WriteFailed) else None
      ensures desks == AllMoved(old(desks), if error.Some? then steps else steps + [Step(id, Put(edit, input))])
      ensures error.None? ==>
                var written := AllMoved(old(desks), steps);
                && desks.Keys == written.Keys && id in desks && Writes(current, input, desks[id].row)
                && forall other <- desks | other != id :: desks[other] == written[other]
    {
      var routing := NormalizeRouting(input.routing);
      var revision := current.revision;
      var changed := ContainerAffectingChanged(current, input, routing);
      if changed {
        revision := revision + 1;
      }
      steps := Others(edit);
      ReadIsKept(old(desks), steps, id, edit);
      OthersAreInUse(desks, id, Trim(input.name));
      if basesFail || InUse(desks, id, Trim(input.name)) {
        return Some(WriteFailed), steps;
      }
      error := None;
      var config := Config(input.prompt, Trim(input.image), Trim(input.model), routing, current.config.skills);
      var row := Version(Trim(input.name), Trim(input.description), config, revision);
      assert row == Updated(current, input);
      UpdatedWrites(current, input);
      desks := desks[id := Land(desks[id], edit, row)];
      assert (steps + [Step(id, Put(edit, input))])[..|steps|] == steps;
    }

    method Validate(input: Input) returns (ok: bool)
      ensures ok == Acceptable(catalogue, input)
    {
      if Trim(input.name) == "" || Trim(input.prompt) == "" || Trim(input.image) !in catalogue.images {
        return false;
      }
      if Trim(input.model) == "" || Trim(input.model) !in catalogue.models {
        return false;
      }
      var left := input.routing.Keys;
      while left != {}
        invariant left <= input.routing.Keys
        invariant forall slot <- input.routing | slot !in left :: SlotIsFine(input, slot)
        decreases |left|
      {
        var slot :| slot in left;
        left := left - {slot};
        if !SlotIsFine(input, slot) {
          return false;
        }
      }
      ok := true;
    }

    predicate SlotIsFine(input: Input, slot: string)
      requires slot in input.routing
    {
      slot in catalogue.slots && (Trim(input.routing[slot]) == "" || Trim(input.routing[slot]) in catalogue.models)
    }

    method ContainerAffectingChanged(current: Version, input: Input, routing: map<string, string>) returns (changed: bool)
      requires routing == Normalized(input.routing)
      ensures changed == Changed(current, input)
    {
      if current.config.prompt != input.prompt {
        return true;
      }
      if current.config.image != Trim(input.image) {
        return true;
      }
      if current.config.model != Trim(input.model) {
        return true;
      }
      var equal := CompareRouting(current.config.routing, routing);
      changed := !equal;
    }

    /**
      Add a skill to the ones that were read; the row keeps whatever else others have written
      meanwhile. What the library answers is an input: the skill, or that there is none to be had.
    */
    method AddSkill(id: string, edit: nat, library: Option<string>) returns (error: Option<EditError>, ghost g: Gaps)
      requires Own(edit)
      modifies this
      ensures Own(edit) && AllForeign(g, edit)
      ensures var read := AllMoved(old(desks), g.first);
              && error == (if id !in read then Some(NotFound)
                           else if library.None? then Some(SkillUnknown)
                           else if library.value in read[id].row.config.skills then Some(SkillNameTaken)
                           else None)
              && (error == Some(NotFound) ==> desks == read)
              && (error == Some(SkillUnknown) || error == Some(SkillNameTaken) ==> desks == AllMoved(old(desks), ThenRead(g, id, edit)))
              && (error.None? ==>
                    desks == AllMoved(old(desks), ThenRead(g, id, edit)
                                                  + [Step(id, PutSkills(edit, read[id].row.config.skills + [library.value]))])
                    && id in desks && desks[id].row.config.skills == read[id].row.config.skills + [library.value]
                    && desks[id].row.revision == read[id].row.revision + 1)
    {
      ghost var steps := Others(edit);
      g := Gaps(steps, [], []);
      if id !in desks {
        return Some(NotFound), g;
      }
      var current;
      current, steps := ReadRow(id, edit);
      g := Gaps(g.first, steps, []);
      ReadInTwo(old(desks), g, id, edit);
      if library.None? {
        return Some(SkillUnknown), g;
      }
      if library.value in current.config.skills {
        return Some(SkillNameTaken), g;
      }
      PersistSkills(id, edit, current, current.config.skills + [library.value]);
      MovedInTwo(old(desks), ThenRead(g, id, edit), [Step(id, PutSkills(edit, current.config.skills + [library.value]))]);
      error := None;
    }

    /** Take a skill out of the ones that were read. */
    method DeleteSkill(id: string, edit: nat, skill: string) returns (error: Option<EditError>, ghost g: Gaps)
      requires Own(edit)
      modifies this
      ensures Own(edit) && AllForeign(g, edit)
      ensures var read := AllMoved(old(desks), g.first);
              && error == (if id !in read then Some(NotFound)
                           else if skill !in read[id].row.config.skills then Some(Invalid)
                           else None)
              && (error == Some(NotFound) ==> desks == read)
              && (error == Some(Invalid) ==> desks == AllMoved(old(desks), ThenRead(g, id, edit)))
              && (error.None? ==>
                    desks == AllMoved(old(desks), ThenRead(g, id, edit)
                                                  + [Step(id, PutSkills(edit, Without(read[id].row.config.skills, skill)))])
                    && id in desks && desks[id].row.config.skills == Without(read[id].row.config.skills, skill)
                    && desks[id].row.revision == read[id].row.revision + 1)
    {
      ghost var steps := Others(edit);
      g := Gaps(steps, [], []);
      if id !in desks {
        return Some(NotFound), g;
      }
      var current;
      current, steps := ReadRow(id, edit);
      g := Gaps(g.first, steps, []);
      ReadInTwo(old(desks), g, id, edit);
      var kept, found := Keep(current.config.skills, skill);
      if !found {
        return Some(Invalid), g;
      }
      PersistSkills(id, edit, current, kept);
      MovedInTwo(old(desks), ThenRead(g, id, edit), [Step(id, PutSkills(edit, kept))]);
      error := None;
    }

    method Keep(skills: seq<string>, skill: string) returns (kept: seq<string>, found: bool)
      ensures kept == Without(skills, skill) && found == (skill in skills)
    {
      kept, found := [], false;
      for i := 0 to |skills|
        invariant kept == Without(skills[..i], skill) && found == (skill in skills[..i])
      {
        assert skills[..i + 1][..i] == skills[..i] && skills[..i + 1] == skills[..i] + [skills[i]];
        if skills[i] == skill {
          found := true;
        } else {
          kept := kept + [skills[i]];
        }
      }
      assert skills[..|skills|] == skills;
    }

    /** The skills as worked out from the row that was read, with its revision and one, over the row as it is now. */
    method PersistSkills(id: string, edit: nat, current: Version, skills: seq<string>)
      requires id in desks && edit in desks[id].open && desks[id].open[edit] == current
      modifies this`desks
      ensures desks == AllMoved(old(desks), [Step(id, PutSkills(edit, skills))])
      ensures id in desks && desks.Keys == old(desks).Keys && forall other <- desks | other != id :: desks[other] == old(desks)[other]
      ensures var now, before := desks[id].row, old(desks)[id].row;
              && now.config.skills == skills && now.revision == current.revision + 1
              && now.(config := now.config.(skills := before.config.skills), revision := before.revision) == before
    {
      assert [Step(id, PutSkills(edit, skills))][..0] == [];
      var d := desks[id];
      var row := d.row.(config := d.row.config.(skills := skills), revision := current.revision + 1);
      desks := desks[id := Land(d, edit, row)];
    }
  }
}
