/** Two runs in which an instance is called in step with its version and is not. */
module StampRuns {
  import opened Options
  import opened VersionEdits
  import opened VersionStamp

  const OFFERED := Catalogue(map["i" := "ref"], {"m"}, {})

  const EMPTY := State(map[], map[], map[], {})

  function Named(name: string): Input {
    Input(name, "", name, "i", "m", map[])
  }

  function Row(name: string): Version {
    Version(name, "", Config(name, "i", "m", map[], []), 1)
  }

  function Skilled(name: string): Version {
    Row(name).(config := Row(name).config.(skills := ["s"]), revision := 2)
  }

  function AtFirst(name: string): Desk {
    Desk(Row(name), map[], {}, [Row(name)])
  }

  /** A row after the one edit of these runs. */
  function AfterEdit(name: string): Desk {
    Desk(Skilled(name), map[], {}, [Row(name), Skilled(name)])
  }

  const ADDED := PutSkills(0, ["s"])

  lemma NamedIsNew(name: string)
    requires name == "a" || name == "b"
    ensures NewDesk(Named(name)) == AtFirst(name) && Acceptable(OFFERED, Named(name))
  {
    TrimOfTrimmed(name);
    TrimOfTrimmed("i");
    TrimOfTrimmed("m");
    TrimOfTrimmed("");
  }

  lemma EditOnce(name: string)
    ensures Act(Act(AtFirst(name), Read(0)), ADDED) == AfterEdit(name)
  {
  }

  lemma ApplyOne(s: State, actions: seq<Action>, n: nat)
    requires 0 < n <= |actions|
    ensures ApplyAll(OFFERED, s, actions[..n]) == Apply(OFFERED, ApplyAll(OFFERED, s, actions[..n - 1]), actions[n - 1])
  {
    assert actions[..n][..n - 1] == actions[..n - 1];
  }

  lemma ApplyThat(actions: seq<Action>, n: nat, a: Action)
    requires 0 < n <= |actions| && actions[n - 1] == a
    ensures ApplyAll(OFFERED, EMPTY, actions[..n]) == Apply(OFFERED, ApplyAll(OFFERED, EMPTY, actions[..n - 1]), a)
  {
    ApplyOne(EMPTY, actions, n);
  }

  /** Two steps of a run that edit a row for the first time, at once. */
  lemma ApplyEdit(actions: seq<Action>, n: nat, name: string, before: State)
    requires 1 < n <= |actions| && actions[n - 2] == Edit(name, Read(0)) && actions[n - 1] == Edit(name, ADDED)
    requires before == ApplyAll(OFFERED, EMPTY, actions[..n - 2]) && name in before.desks && before.desks[name] == AtFirst(name)
    ensures ApplyAll(OFFERED, EMPTY, actions[..n]) == before.(desks := before.desks[name := AfterEdit(name)])
  {
    ApplyOne(EMPTY, actions, n - 1);
    ApplyOne(EMPTY, actions, n);
    ReadThenWrite(OFFERED, before, name, ADDED);
    EditOnce(name);
  }

  // ---- Switched under way --------------------------------------------------------------------

  /**
   * An instance is switched while its restart is under way. The restart stamps revision 2 of the
   * version it read; when the new version comes to revision 2, the list calls the two in step.
   */
  function SwitchedUnderway(): seq<Action> {
    [Create("a", Named("a")), Edit("a", Read(0)), Edit("a", ADDED), Create("b", Named("b")),
     Install("app", "a"), Begin("job", "app"), Switch("app", "b"), Finish("job")]
  }

  const LATER_EDIT := [Edit("b", Read(0)), Edit("b", ADDED)]

  function TwoDesks(): map<string, Desk> {
    map["a" := AfterEdit("a"), "b" := AtFirst("b")]
  }

  lemma TwoVersions()
    ensures ApplyAll(OFFERED, EMPTY, SwitchedUnderway()[..4]) == State(TwoDesks(), map[], map[], {})
  {
    OneVersion();
    SecondVersion(State(map["a" := AfterEdit("a")], map[], map[], {}));
    ApplyThat(SwitchedUnderway(), 4, Create("b", Named("b")));
  }

  lemma SecondVersion(s: State)
    requires s == State(map["a" := AfterEdit("a")], map[], map[], {})
    ensures Apply(OFFERED, s, Create("b", Named("b"))) == s.(desks := TwoDesks())
  {
    NamedIsNew("b");
  }

  lemma OneVersion()
    ensures ApplyAll(OFFERED, EMPTY, SwitchedUnderway()[..3]) == State(map["a" := AfterEdit("a")], map[], map[], {})
  {
    NamedIsNew("a");
    ApplyOne(EMPTY, SwitchedUnderway(), 1);
    ApplyEdit(SwitchedUnderway(), 3, "a", State(map["a" := AtFirst("a")], map[], map[], {}));
  }

  function Reading(): Job {
    Job("app", "a", 2, Skilled("a").config)
  }

  lemma RestartBegins()
    ensures ApplyAll(OFFERED, EMPTY, SwitchedUnderway()[..6])
         == State(TwoDesks(), map["app" := App("a", 0, "", None, None, false)], map["job" := Reading()], {})
  {
    TwoVersions();
    ApplyOne(EMPTY, SwitchedUnderway(), 5);
    ApplyOne(EMPTY, SwitchedUnderway(), 6);
    JobReads(State(TwoDesks(), map["app" := App("a", 0, "", None, None, false)], map[], {}));
  }

  lemma JobReads(s: State)
    requires s == State(TwoDesks(), map["app" := App("a", 0, "", None, None, false)], map[], {})
    ensures Apply(OFFERED, s, Begin("job", "app")) == s.(jobs := map["job" := Reading()])
  {
  }

  lemma SwitchIsOverwritten()
    ensures ApplyAll(OFFERED, EMPTY, SwitchedUnderway())
         == State(TwoDesks(), map["app" := App("b", 2, "ref", Some(Skilled("a").config), None, false)], map[], {})
  {
    var t := SwitchedUnderway();
    RestartBegins();
    ApplyOne(EMPTY, t, 7);
    SwitchedTo(ApplyAll(OFFERED, EMPTY, t[..6]));
    ApplyOne(EMPTY, t, 8);
    Stamped(ApplyAll(OFFERED, EMPTY, t[..7]));
    assert t[..8] == t;
  }

  lemma SwitchedTo(s: State)
    requires s == State(TwoDesks(), map["app" := App("a", 0, "", None, None, false)], map["job" := Reading()], {})
    ensures Apply(OFFERED, s, Switch("app", "b")) == s.(apps := map["app" := App("b", 0, "", None, None, false)])
  {
  }

  lemma Stamped(s: State)
    requires s == State(TwoDesks(), map["app" := App("b", 0, "", None, None, false)], map["job" := Reading()], {})
    ensures Apply(OFFERED, s, Finish("job"))
         == s.(apps := map["app" := App("b", 2, "ref", Some(Skilled("a").config), None, false)], jobs := map[])
  {
  }

  /** The condition for a misleading stamp is met by a run, and a later edit of the new version completes the deception. */
  lemma SwitchedUnderwayMisleads()
    ensures var s := ApplyAll(OFFERED, EMPTY, SwitchedUnderway());
            "app" in s.apps && s.apps["app"].bound in s.desks && MisledAfter(OFFERED, s, "app", LATER_EDIT)
  {
    SwitchIsOverwritten();
    EditOnce("b");
    var s := ApplyAll(OFFERED, EMPTY, SwitchedUnderway());
    OneEditMore(OFFERED, s, [], "b", ADDED, "app");
    assert [] + LATER_EDIT == LATER_EDIT;
  }

  // ---- Stamped early -------------------------------------------------------------------------

  /** A restart stamps its revision before the new pod has read anything. */
  function StampedEarly(): seq<Action> {
    [Create("a", Named("a")), Install("app", "a"), Boot("app"), Edit("a", Read(0)), Edit("a", ADDED),
     Begin("job", "app"), Finish("job")]
  }

  function Booted(): App {
    App("a", 0, "", None, Some(Running("a", 1, Row("a").config)), true)
  }

  lemma PodRuns()
    ensures ApplyAll(OFFERED, EMPTY, StampedEarly()[..3]) == State(map["a" := AtFirst("a")], map["app" := Booted()], map[], {})
  {
    NamedIsNew("a");
    ApplyOne(EMPTY, StampedEarly(), 1);
    ApplyOne(EMPTY, StampedEarly(), 2);
    ApplyOne(EMPTY, StampedEarly(), 3);
  }

  lemma VersionMovesOn()
    ensures ApplyAll(OFFERED, EMPTY, StampedEarly()[..5]) == State(map["a" := AfterEdit("a")], map["app" := Booted()], map[], {})
  {
    PodRuns();
    ApplyEdit(StampedEarly(), 5, "a", State(map["a" := AtFirst("a")], map["app" := Booted()], map[], {}));
  }

  lemma RestartEnds(s: State)
    requires s == State(map["a" := AfterEdit("a")], map["app" := Booted()], map[], {})
    ensures var t := Apply(OFFERED, Apply(OFFERED, s, Begin("job", "app")), Finish("job"));
            t.desks == s.desks && t.apps == map["app" := Booted().(appliedRevision := 2, appliedImage := "ref",
                                                                  read := Some(Skilled("a").config), booted := false)]
  {
  }

  /** A stamp in step with its version while the pod still runs what it read before. */
  lemma StampedBeforeThePodReads()
    ensures var t := ApplyAll(OFFERED, EMPTY, StampedEarly());
            && "app" in t.apps && t.apps["app"].bound == "a" && "a" in t.desks && !t.apps["app"].booted
            && Synced(OFFERED, t.apps["app"], t.desks["a"].row) && t.apps["app"].read == Some(t.desks["a"].row.config)
            && t.apps["app"].running == Some(Running("a", 1, Row("a").config)) && Row("a").config != t.desks["a"].row.config
  {
    var t := StampedEarly();
    VersionMovesOn();
    RestartEnds(ApplyAll(OFFERED, EMPTY, t[..5]));
    ApplyOne(EMPTY, t, 6);
    ApplyOne(EMPTY, t, 7);
    assert t[..7] == t;
  }
}
