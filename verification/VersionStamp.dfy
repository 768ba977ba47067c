/**
 * An instance is called in step with its version when the revision stamped on it is the version's.
 * When that tells the truth about what it runs, and when it does not.
 */
module VersionStamp {
  import opened Options
  import opened Text
  import opened VersionEdits

  /** What a pod read when it started, and of which version: this is not kept anywhere, it is history. */
  datatype Running = Running(version: string, revision: nat, config: Config)

  /**
   * An instance; read is the configuration that the last stamp was made from, running what its pod
   * reads last, and booted whether that was since the job behind the stamp read the version.
   */
  datatype App = App(bound: string, appliedRevision: nat, appliedImage: string, read: Option<Config>,
                     running: Option<Running>, booted: bool)

  /** A start or restart: what it read when it began. */
  datatype Job = Job(app: string, version: string, revision: nat, config: Config)

  /** served holds the jobs since whose beginning a pod of their instance has started. */
  datatype State = State(desks: map<string, Desk>, apps: map<string, App>, jobs: map<string, Job>, served: set<string>)

  datatype Action =
    | Create(id: string, input: Input)
    | Edit(id: string, move: Move)
    | Install(app: string, version: string)
    | Switch(app: string, version: string)
    | Begin(job: string, app: string)
    | Boot(app: string)
    | Finish(job: string)

  function ImageOf(c: Catalogue, image: string): Option<string> {
    if image in c.images then Some(c.images[image]) else None
  }

  /** Unacceptable contents are refused before anything is read. */
  predicate Admissible(c: Catalogue, m: Move) {
    m.Put? ==> Acceptable(c, m.input)
  }

  /** What a pod reads that starts now. */
  function ReadBy(s: State, app: string): Running
    requires app in s.apps && s.apps[app].bound in s.desks
  {
    var v := s.desks[s.apps[app].bound].row;
    Running(s.apps[app].bound, v.revision, v.config)
  }

  function JobsOf(s: State, app: string): set<string> {
    set j <- s.jobs | s.jobs[j].app == app
  }

  function Apply(c: Catalogue, s: State, a: Action): State {
    match a
    case Create(id, input) =>
      if id in s.desks || !Acceptable(c, input) then s else s.(desks := s.desks[id := NewDesk(input)])
    case Edit(id, move) =>
      if id !in s.desks || !Admissible(c, move) then s else s.(desks := s.desks[id := Act(s.desks[id], move)])
    case Install(app, version) =>
      if app in s.apps || version !in s.desks then s
      else s.(apps := s.apps[app := App(version, 0, "", None, None, false)])
    case Switch(app, version) =>
      if app !in s.apps || version !in s.desks then s
      else s.(apps := s.apps[app := App(version, 0, "", None, s.apps[app].running, false)], served := s.served - JobsOf(s, app))
    case Begin(job, app) =>
      if job in s.jobs || app !in s.apps || s.apps[app].bound !in s.desks then s
      else
        var v := s.desks[s.apps[app].bound].row;
        s.(jobs := s.jobs[job := Job(app, s.apps[app].bound, v.revision, v.config)], served := s.served - {job})
    case Boot(app) =>
      if app !in s.apps || s.apps[app].bound !in s.desks then s
      else
        s.(apps := s.apps[app := s.apps[app].(running := Some(ReadBy(s, app)), booted := true)],
           served := s.served + JobsOf(s, app))
    case Finish(job) =>
      if job !in s.jobs then s else Stamp(c, s, s.jobs[job], job in s.served).(jobs := s.jobs - {job}, served := s.served - {job})
  }

  /** The stamp is written by instance alone; what it is bound to by now is not looked at. */
  function Stamp(c: Catalogue, s: State, job: Job, served: bool): State {
    var image := ImageOf(c, job.config.image);
    if job.app !in s.apps || image.None? then s
    else s.(apps := s.apps[job.app :=
                      s.apps[job.app].(appliedRevision := job.revision, appliedImage := image.value,
                                       read := Some(job.config), booted := served)])
  }

  predicate Synced(c: Catalogue, app: App, v: Version) {
    app.appliedRevision == v.revision && ImageOf(c, v.config.image) == Some(app.appliedImage)
  }

  function ApplyAll(c: Catalogue, s: State, actions: seq<Action>): State {
    if actions == [] then s
    else Apply(c, ApplyAll(c, s, actions[..|actions| - 1]), actions[|actions| - 1])
  }

  /** No edit writes what another one has written since it read. */
  predicate InTime(s: State, a: Action) {
    a.Edit? && a.id in s.desks ==> Timely(s.desks[a.id], a.move)
  }

  predicate AllInTime(c: Catalogue, s: State, actions: seq<Action>) {
    actions == []
    || (AllInTime(c, s, actions[..|actions| - 1])
        && InTime(ApplyAll(c, s, actions[..|actions| - 1]), actions[|actions| - 1]))
  }

  // ---- What was read stays truthful ----------------------------------------------------------

  function AsInput(v: Version): Input {
    Input(v.name, v.description, v.config.prompt, v.config.image, v.config.model, v.config.routing)
  }

  /** A revision read earlier is no later than the current one, and if it is the current one, so is the rest. */
  ghost predicate ReadFrom(revision: nat, config: Config, v: Version) {
    1 <= revision <= v.revision && (revision == v.revision ==> config == v.config)
  }

  /** What runs was read from this version, no earlier than this revision. */
  ghost predicate RunsSince(app: App, revision: nat, v: Version) {
    app.running.Some? && app.running.value.version == app.bound && revision <= app.running.value.revision
    && ReadFrom(app.running.value.revision, app.running.value.config, v)
  }

  ghost predicate JobOk(s: State, j: Job, served: bool) {
    && j.app in s.apps && j.version in s.desks && ReadFrom(j.revision, j.config, s.desks[j.version].row)
    && (served && s.apps[j.app].bound == j.version ==> RunsSince(s.apps[j.app], j.revision, s.desks[j.version].row))
  }

  ghost predicate DesksOk(c: Catalogue, desks: map<string, Desk>) {
    forall id <- desks :: DeskOk(desks[id]) && AllRowsOk(c, desks[id])
  }

  ghost predicate AllRowsOk(c: Catalogue, d: Desk) {
    Acceptable(c, AsInput(d.row)) && forall e <- d.open :: Acceptable(c, AsInput(d.open[e]))
  }

  predicate ImageOk(c: Catalogue, image: string) {
    Trimmed(image) && image in c.images
  }

  ghost predicate JobsOk(c: Catalogue, s: State) {
    && (forall app <- s.apps :: s.apps[app].bound in s.desks)
    && (forall j <- s.jobs :: JobOk(s, s.jobs[j], j in s.served) && ImageOk(c, s.jobs[j].config.image))
  }

  ghost predicate Inv(c: Catalogue, s: State) {
    DesksOk(c, s.desks) && JobsOk(c, s)
  }

  lemma TrimOfTrimmed(s: string)
    requires Trimmed(s)
    ensures Trim(s) == s
  {
  }

  /** What was accepted once is accepted again, as it was stored. */
  lemma StoredIsAcceptable(c: Catalogue, input: Input, v: Version)
    requires Acceptable(c, input) && v.name == Trim(input.name) && v.config.prompt == input.prompt
    requires v.config.image == Trim(input.image) && v.config.model == Trim(input.model)
    requires v.config.routing == Normalized(input.routing)
    ensures Acceptable(c, AsInput(v))
  {
    TrimIsTrimmed(input.name);
    TrimIsTrimmed(input.image);
    TrimIsTrimmed(input.model);
    forall slot <- v.config.routing ensures Trim(v.config.routing[slot]) == Trim(input.routing[slot]) {
      TrimIsTrimmed(input.routing[slot]);
    }
  }

  lemma TrimIsTrimmed(s: string)
    ensures Trim(Trim(s)) == Trim(s)
  {
    TrimIsPart(s);
    TrimOfTrimmed(Trim(s));
  }

  lemma ActKeepsRowsOk(c: Catalogue, d: Desk, m: Move)
    requires AllRowsOk(c, d) && Admissible(c, m)
    ensures AllRowsOk(c, Act(d, m))
  {
    if m.Put? && m.edit in d.open {
      StoredIsAcceptable(c, m.input, Updated(d.open[m.edit], m.input));
    }
  }

  /** Every version is still there, and its row a later one. */
  ghost predicate RowsFollow(s: State, t: State) {
    forall id <- s.desks :: id in t.desks && Follows(s.desks[id].row, t.desks[id].row)
  }

  lemma DeskKeepsJobs(c: Catalogue, s: State, id: string, d: Desk)
    requires JobsOk(c, s) && (id in s.desks ==> Follows(s.desks[id].row, d.row))
    ensures JobsOk(c, s.(desks := s.desks[id := d])) && RowsFollow(s, s.(desks := s.desks[id := d]))
  {
    var t := s.(desks := s.desks[id := d]);
    forall j <- t.jobs ensures JobOk(t, t.jobs[j], j in t.served) {
      assert JobOk(s, s.jobs[j], j in s.served);
    }
  }

  lemma BindKeepsJobs(c: Catalogue, s: State, a: Action)
    requires JobsOk(c, s) && (a.Install? || a.Switch?)
    ensures JobsOk(c, Apply(c, s, a)) && Apply(c, s, a).desks == s.desks
  {
    var t := Apply(c, s, a);
    forall j <- t.jobs ensures JobOk(t, t.jobs[j], j in t.served) {
      assert JobOk(s, s.jobs[j], j in s.served);
    }
  }

  /** What a job or a pod can read: a real revision, and an image of the catalogue. */
  ghost predicate RowsReadable(c: Catalogue, s: State) {
    forall id <- s.desks :: s.desks[id].row.revision >= 1 && ImageOk(c, s.desks[id].row.config.image)
  }

  lemma BeginKeepsJobs(c: Catalogue, s: State, job: string, app: string)
    requires JobsOk(c, s) && RowsReadable(c, s)
    ensures JobsOk(c, Apply(c, s, Begin(job, app))) && Apply(c, s, Begin(job, app)).desks == s.desks
  {
    var t := Apply(c, s, Begin(job, app));
    forall j <- t.jobs ensures JobOk(t, t.jobs[j], j in t.served) {
      assert j in s.jobs ==> JobOk(s, s.jobs[j], j in s.served);
    }
  }

  lemma BootKeepsJobs(c: Catalogue, s: State, app: string)
    requires JobsOk(c, s) && RowsReadable(c, s)
    ensures JobsOk(c, Apply(c, s, Boot(app))) && Apply(c, s, Boot(app)).desks == s.desks
  {
    var t := Apply(c, s, Boot(app));
    forall j <- t.jobs ensures JobOk(t, t.jobs[j], j in t.served) {
      assert JobOk(s, s.jobs[j], j in s.served);
    }
  }

  lemma FinishKeepsJobs(c: Catalogue, s: State, job: string)
    requires JobsOk(c, s)
    ensures JobsOk(c, Apply(c, s, Finish(job))) && Apply(c, s, Finish(job)).desks == s.desks
  {
    var t := Apply(c, s, Finish(job));
    forall j <- t.jobs ensures JobOk(t, t.jobs[j], j in t.served) {
      assert JobOk(s, s.jobs[j], j in s.served);
    }
  }

  lemma ActKeepsDesk(c: Catalogue, d: Desk, m: Move)
    requires DeskOk(d) && AllRowsOk(c, d) && Timely(d, m) && Admissible(c, m)
    ensures DeskOk(Act(d, m)) && AllRowsOk(c, Act(d, m)) && Follows(d.row, Act(d, m).row)
  {
    ActKeepsDeskOk(d, m);
    ActKeepsRowsOk(c, d, m);
  }

  lemma RowIsReadable(c: Catalogue, d: Desk)
    requires DeskOk(d) && AllRowsOk(c, d)
    ensures d.row.revision >= 1 && ImageOk(c, d.row.config.image)
  {
    TrimOfTrimmed(d.row.config.image);
  }

  lemma AllRowsAreReadable(c: Catalogue, s: State)
    requires DesksOk(c, s.desks)
    ensures RowsReadable(c, s)
  {
    forall id <- s.desks ensures s.desks[id].row.revision >= 1 && ImageOk(c, s.desks[id].row.config.image) {
      RowIsReadable(c, s.desks[id]);
    }
  }

  lemma CreateKeepsInv(c: Catalogue, s: State, id: string, input: Input)
    requires Inv(c, s)
    ensures Inv(c, Apply(c, s, Create(id, input))) && RowsFollow(s, Apply(c, s, Create(id, input)))
  {
    if id !in s.desks && Acceptable(c, input) {
      CreatedIsOk(input);
      StoredIsAcceptable(c, input, Created(input));
      DeskKeepsJobs(c, s, id, NewDesk(input));
      DeskKeepsDesks(c, s.desks, id, NewDesk(input));
    }
  }

  lemma EditKeepsInv(c: Catalogue, s: State, id: string, move: Move)
    requires Inv(c, s) && InTime(s, Edit(id, move))
    ensures Inv(c, Apply(c, s, Edit(id, move))) && RowsFollow(s, Apply(c, s, Edit(id, move)))
  {
    if id in s.desks && Admissible(c, move) {
      ActKeepsDesk(c, s.desks[id], move);
      DeskKeepsJobs(c, s, id, Act(s.desks[id], move));
      DeskKeepsDesks(c, s.desks, id, Act(s.desks[id], move));
    }
  }

  lemma DeskKeepsDesks(c: Catalogue, desks: map<string, Desk>, id: string, d: Desk)
    requires DesksOk(c, desks) && DeskOk(d) && AllRowsOk(c, d)
    ensures DesksOk(c, desks[id := d])
  {
  }

  lemma ApplyKeepsInv(c: Catalogue, s: State, a: Action)
    requires Inv(c, s) && InTime(s, a)
    ensures Inv(c, Apply(c, s, a)) && RowsFollow(s, Apply(c, s, a))
  {
    match a
    case Create(id, input) => CreateKeepsInv(c, s, id, input);
    case Edit(id, move) => EditKeepsInv(c, s, id, move);
    case _ =>
      AllRowsAreReadable(c, s);
      RestKeepsJobs(c, s, a);
  }

  lemma RestKeepsJobs(c: Catalogue, s: State, a: Action)
    requires JobsOk(c, s) && RowsReadable(c, s) && !a.Create? && !a.Edit?
    ensures JobsOk(c, Apply(c, s, a)) && Apply(c, s, a).desks == s.desks
  {
    match a
    case Begin(job, app) => BeginKeepsJobs(c, s, job, app);
    case Boot(app) => BootKeepsJobs(c, s, app);
    case Finish(job) => FinishKeepsJobs(c, s, job);
    case _ => BindKeepsJobs(c, s, a);
  }

  /** Along any run whose edits are in time, one revision of a version is one configuration. */
  lemma {:induction false} EqualRevisionsEqualConfigs(c: Catalogue, s: State, actions: seq<Action>, id: string)
    requires Inv(c, s) && id in s.desks && AllInTime(c, s, actions)
    ensures var t := ApplyAll(c, s, actions);
            Inv(c, t) && id in t.desks && ToldApart(t.desks[id].past) && Follows(s.desks[id].row, t.desks[id].row)
    decreases |actions|
  {
    if actions != [] {
      var before := actions[..|actions| - 1];
      EqualRevisionsEqualConfigs(c, s, before, id);
      ApplyKeepsInv(c, ApplyAll(c, s, before), actions[|actions| - 1]);
    }
  }

  // ---- When a stamp tells the truth ----------------------------------------------------------

  /** The stamp was read from the version the instance is bound to, and so was what it runs, if its pod started since. */
  ghost predicate Honest(s: State, app: App) {
    app.appliedRevision == 0
    || (&& app.read.Some? && app.bound in s.desks && ReadFrom(app.appliedRevision, app.read.value, s.desks[app.bound].row)
        && (app.booted ==> RunsSince(app, app.appliedRevision, s.desks[app.bound].row)))
  }

  ghost predicate AllHonest(s: State) {
    forall app <- s.apps :: Honest(s, s.apps[app])
  }

  ghost predicate BoundAsRead(s: State, job: string) {
    job in s.jobs && s.jobs[job].app in s.apps ==> s.apps[s.jobs[job].app].bound == s.jobs[job].version
  }

  /** No instance was switched between the beginning and the end of one of its jobs. */
  ghost predicate Undisturbed(c: Catalogue, s: State, actions: seq<Action>) {
    actions == []
    || (&& Undisturbed(c, s, actions[..|actions| - 1])
        && var t, last := ApplyAll(c, s, actions[..|actions| - 1]), actions[|actions| - 1];
           last.Finish? ==> BoundAsRead(t, last.job))
  }

  lemma EditsKeepHonest(s: State, t: State)
    requires AllHonest(s) && RowsFollow(s, t) && t.apps == s.apps
    ensures AllHonest(t)
  {
    forall app <- t.apps ensures Honest(t, t.apps[app]) {
      assert Honest(s, s.apps[app]);
    }
  }

  lemma FinishKeepsHonest(c: Catalogue, s: State, job: string)
    requires JobsOk(c, s) && AllHonest(s) && BoundAsRead(s, job)
    ensures AllHonest(Apply(c, s, Finish(job)))
  {
    var t := Apply(c, s, Finish(job));
    assert job in s.jobs ==> JobOk(s, s.jobs[job], job in s.served);
    forall app <- t.apps ensures Honest(t, t.apps[app]) {
      assert Honest(s, s.apps[app]);
    }
  }

  lemma BootKeepsHonest(c: Catalogue, s: State, app: string)
    requires RowsReadable(c, s) && AllHonest(s)
    ensures AllHonest(Apply(c, s, Boot(app)))
  {
    var t := Apply(c, s, Boot(app));
    forall other <- t.apps ensures Honest(t, t.apps[other]) {
      assert Honest(s, s.apps[other]);
    }
  }

  lemma BindKeepsHonest(c: Catalogue, s: State, a: Action)
    requires AllHonest(s) && (a.Install? || a.Switch? || a.Begin?)
    ensures AllHonest(Apply(c, s, a))
  {
    var t := Apply(c, s, a);
    forall app <- t.apps ensures Honest(t, t.apps[app]) {
      assert app in s.apps ==> Honest(s, s.apps[app]);
    }
  }

  lemma ApplyKeepsHonest(c: Catalogue, s: State, a: Action)
    requires JobsOk(c, s) && RowsReadable(c, s) && RowsFollow(s, Apply(c, s, a)) && AllHonest(s)
    requires a.Finish? ==> BoundAsRead(s, a.job)
    ensures AllHonest(Apply(c, s, a))
  {
    match a
    case Finish(job) => FinishKeepsHonest(c, s, job);
    case Boot(app) => BootKeepsHonest(c, s, app);
    case Install(_, _) => BindKeepsHonest(c, s, a);
    case Switch(_, _) => BindKeepsHonest(c, s, a);
    case Begin(_, _) => BindKeepsHonest(c, s, a);
    case _ => EditsKeepHonest(s, Apply(c, s, a));
  }

  predicate TellsTheTruth(c: Catalogue, a: App, v: Version) {
    Synced(c, a, v) ==> a.read == Some(v.config) && (a.booted ==> a.running == Some(Running(a.bound, v.revision, v.config)))
  }

  lemma HonestStampsAreTrue(c: Catalogue, t: State)
    requires JobsOk(c, t) && RowsReadable(c, t) && AllHonest(t)
    ensures forall app <- t.apps :: TellsTheTruth(c, t.apps[app], t.desks[t.apps[app].bound].row)
  {
    forall app <- t.apps ensures TellsTheTruth(c, t.apps[app], t.desks[t.apps[app].bound].row) {
      assert Honest(t, t.apps[app]) && t.desks[t.apps[app].bound].row.revision >= 1;
    }
  }

  /**
   * With edits in time and nothing switched under a job, an instance is only called synced when
   * its stamp was made from the current configuration; and once its pod has started since, that
   * is what it runs.
   */
  lemma {:induction false} SyncedTellsTheTruth(c: Catalogue, s: State, actions: seq<Action>)
    requires Inv(c, s) && AllHonest(s) && AllInTime(c, s, actions) && Undisturbed(c, s, actions)
    ensures var t := ApplyAll(c, s, actions);
            Inv(c, t) && AllHonest(t) && forall app <- t.apps :: TellsTheTruth(c, t.apps[app], t.desks[t.apps[app].bound].row)
    decreases |actions|
  {
    if actions != [] {
      var before := actions[..|actions| - 1];
      SyncedTellsTheTruth(c, s, before);
      ApplyKeepsInv(c, ApplyAll(c, s, before), actions[|actions| - 1]);
      AllRowsAreReadable(c, ApplyAll(c, s, before));
      ApplyKeepsHonest(c, ApplyAll(c, s, before), actions[|actions| - 1]);
    }
    AllRowsAreReadable(c, ApplyAll(c, s, actions));
    HonestStampsAreTrue(c, ApplyAll(c, s, actions));
  }

  // ---- What the pod runs ---------------------------------------------------------------------

  /** What a pod read stays truthful of the version it was read from. */
  ghost predicate PodOk(s: State, app: App) {
    app.running.Some? ==>
      var read := app.running.value;
      read.version in s.desks && ReadFrom(read.revision, read.config, s.desks[read.version].row)
  }

  ghost predicate PodsOk(s: State) {
    forall app <- s.apps :: PodOk(s, s.apps[app])
  }

  lemma RunningIsOldOrNew(c: Catalogue, s: State, a: Action, app: string)
    requires app in Apply(c, s, a).apps
    ensures var running := Apply(c, s, a).apps[app].running;
            || running.None? || (app in s.apps && running == s.apps[app].running)
            || (app in s.apps && s.apps[app].bound in s.desks && running == Some(ReadBy(s, app)))
  {
  }

  lemma ApplyKeepsPods(c: Catalogue, s: State, a: Action)
    requires PodsOk(s) && RowsReadable(c, s) && RowsFollow(s, Apply(c, s, a))
    ensures PodsOk(Apply(c, s, a))
  {
    var t := Apply(c, s, a);
    forall app <- t.apps ensures PodOk(t, t.apps[app]) {
      RunningIsOldOrNew(c, s, a, app);
      assert app in s.apps ==> PodOk(s, s.apps[app]);
    }
  }

  lemma {:induction false} RunKeepsPods(c: Catalogue, s: State, actions: seq<Action>)
    requires Inv(c, s) && PodsOk(s) && AllInTime(c, s, actions)
    ensures Inv(c, ApplyAll(c, s, actions)) && PodsOk(ApplyAll(c, s, actions))
    decreases |actions|
  {
    if actions != [] {
      var before, a := ApplyAll(c, s, actions[..|actions| - 1]), actions[|actions| - 1];
      RunKeepsPods(c, s, actions[..|actions| - 1]);
      ApplyKeepsInv(c, before, a);
      AllRowsAreReadable(c, before);
      ApplyKeepsPods(c, before, a);
    }
  }

  /** The pod runs what it would read if it started now. */
  predicate RunsCurrent(s: State, app: string)
    requires app in s.apps && s.apps[app].bound in s.desks
  {
    s.apps[app].running == Some(ReadBy(s, app))
  }

  /** The pod read the version that the instance is bound to. */
  predicate RunsBound(app: App) {
    app.running.Some? && app.running.value.version == app.bound
  }

  /**
   * Over every run with edits in time, whatever is switched and stamped: an instance that is
   * called in step runs the current configuration exactly when its pod read the bound version at
   * the stamped revision; if its pod read that version at all, it is stale exactly when the
   * stamped revision is ahead of the one its pod read.
   */
  lemma InStepIsStaleExactlyWhen(c: Catalogue, s: State, actions: seq<Action>, app: string)
    requires Inv(c, s) && PodsOk(s) && AllInTime(c, s, actions) && app in ApplyAll(c, s, actions).apps
    ensures var t := ApplyAll(c, s, actions);
            var a := t.apps[app];
            && a.bound in t.desks
            && (Synced(c, a, t.desks[a.bound].row) ==>
                  && (RunsCurrent(t, app) <==> RunsBound(a) && a.running.value.revision == a.appliedRevision)
                  && (RunsBound(a) ==> (!RunsCurrent(t, app) <==> a.appliedRevision > a.running.value.revision)))
  {
    RunKeepsPods(c, s, actions);
    var t := ApplyAll(c, s, actions);
    assert PodOk(t, t.apps[app]);
  }

  /** The pod is not replaced, and the instance not switched. */
  predicate SamePod(actions: seq<Action>, app: string) {
    forall a <- actions :: a != Boot(app) && !(a.Switch? && a.app == app)
  }

  lemma {:induction false} PodStays(c: Catalogue, s: State, actions: seq<Action>, app: string)
    requires app in s.apps && SamePod(actions, app)
    ensures var t := ApplyAll(c, s, actions);
            app in t.apps && t.apps[app].running == s.apps[app].running && t.apps[app].bound == s.apps[app].bound
    decreases |actions|
  {
    if actions != [] {
      PodStays(c, s, actions[..|actions| - 1], app);
      assert actions[|actions| - 1] in actions;
    }
  }

  /**
   * From its start on, a pod runs the current configuration exactly as long as no edit has moved
   * the revision of its version; whether a stamp was made before or after it read is no matter.
   */
  lemma PodIsCurrentExactlyWhen(c: Catalogue, s: State, app: string, actions: seq<Action>)
    requires Inv(c, s) && app in s.apps && SamePod(actions, app) && AllInTime(c, Apply(c, s, Boot(app)), actions)
    ensures var t, id := ApplyAll(c, Apply(c, s, Boot(app)), actions), s.apps[app].bound;
            && id in s.desks && id in t.desks && app in t.apps && t.apps[app].bound == id
            && (RunsCurrent(t, app) <==> t.desks[id].row.revision == s.desks[id].row.revision)
  {
    ApplyKeepsInv(c, s, Boot(app));
    PodReads(c, s, app);
    StaysCurrentExactlyWhen(c, Apply(c, s, Boot(app)), app, actions);
  }

  lemma PodReads(c: Catalogue, s: State, app: string)
    requires app in s.apps && s.apps[app].bound in s.desks
    ensures var t := Apply(c, s, Boot(app));
            t.desks == s.desks && app in t.apps && t.apps[app].bound == s.apps[app].bound && RunsCurrent(t, app)
  {
  }

  lemma StaysCurrentExactlyWhen(c: Catalogue, s: State, app: string, actions: seq<Action>)
    requires Inv(c, s) && app in s.apps && s.apps[app].bound in s.desks && RunsCurrent(s, app)
    requires SamePod(actions, app) && AllInTime(c, s, actions)
    ensures var t, id := ApplyAll(c, s, actions), s.apps[app].bound;
            && id in t.desks && app in t.apps && t.apps[app].bound == id
            && (RunsCurrent(t, app) <==> t.desks[id].row.revision == s.desks[id].row.revision)
  {
    PodStays(c, s, actions, app);
    EqualRevisionsEqualConfigs(c, s, actions, s.apps[app].bound);
  }

  // ---- When it does not ----------------------------------------------------------------------

  /** The instance is called in step although its stamp was made from something else. */
  ghost predicate Misled(c: Catalogue, s: State, app: string)
    requires app in s.apps && s.apps[app].bound in s.desks
  {
    var v := s.desks[s.apps[app].bound].row;
    Synced(c, s.apps[app], v) && s.apps[app].read != Some(v.config)
  }

  /** The instance is not switched, and none of its jobs ends. */
  predicate LeavesAlone(s: State, a: Action, app: string) {
    match a
    case Switch(other, _) => other != app
    case Finish(job) => job in s.jobs ==> s.jobs[job].app != app
    case _ => true
  }

  predicate AllLeaveAlone(c: Catalogue, s: State, actions: seq<Action>, app: string) {
    actions == []
    || (AllLeaveAlone(c, s, actions[..|actions| - 1], app)
        && LeavesAlone(ApplyAll(c, s, actions[..|actions| - 1]), actions[|actions| - 1], app))
  }

  predicate SameStamp(a: App, b: App) {
    a.bound == b.bound && a.appliedRevision == b.appliedRevision && a.appliedImage == b.appliedImage && a.read == b.read
  }

  lemma {:induction false} StampLasts(c: Catalogue, s: State, actions: seq<Action>, app: string)
    requires app in s.apps && AllLeaveAlone(c, s, actions, app)
    ensures app in ApplyAll(c, s, actions).apps && SameStamp(s.apps[app], ApplyAll(c, s, actions).apps[app])
    decreases |actions|
  {
    if actions != [] {
      StampLasts(c, s, actions[..|actions| - 1], app);
    }
  }

  /** Actions that leave the instance alone, with edits in time, make the list call it in step wrongly. */
  ghost predicate CanMislead(c: Catalogue, s: State, app: string)
    requires app in s.apps && s.apps[app].bound in s.desks
  {
    exists more :: MisledAfter(c, s, app, more)
  }

  ghost predicate MisledAfter(c: Catalogue, s: State, app: string, more: seq<Action>)
    requires app in s.apps && s.apps[app].bound in s.desks
  {
    var t := ApplyAll(c, s, more);
    && AllInTime(c, s, more) && AllLeaveAlone(c, s, more, app)
    && app in t.apps && t.apps[app].bound in t.desks && Misled(c, t, app)
  }

  lemma OneMore(c: Catalogue, s: State, actions: seq<Action>, a: Action, app: string)
    ensures ApplyAll(c, s, actions + [a]) == Apply(c, ApplyAll(c, s, actions), a)
    ensures AllInTime(c, s, actions + [a]) <==> AllInTime(c, s, actions) && InTime(ApplyAll(c, s, actions), a)
    ensures AllLeaveAlone(c, s, actions + [a], app) <==>
              AllLeaveAlone(c, s, actions, app) && LeavesAlone(ApplyAll(c, s, actions), a, app)
  {
    assert (actions + [a])[..|actions + [a]| - 1] == actions;
  }

  /** An edit that reads and writes at once. */
  lemma OneEditMore(c: Catalogue, s: State, actions: seq<Action>, id: string, m: Move, app: string)
    requires AllInTime(c, s, actions) && AllLeaveAlone(c, s, actions, app) && id in ApplyAll(c, s, actions).desks
    requires !m.Read? && Admissible(c, m)
    ensures var more, t := actions + [Edit(id, Read(m.edit)), Edit(id, m)], ApplyAll(c, s, actions);
            && AllInTime(c, s, more) && AllLeaveAlone(c, s, more, app)
            && ApplyAll(c, s, more) == t.(desks := t.desks[id := Act(Act(t.desks[id], Read(m.edit)), m)])
  {
    OneMore(c, s, actions, Edit(id, Read(m.edit)), app);
    OneMore(c, s, actions + [Edit(id, Read(m.edit))], Edit(id, m), app);
    assert actions + [Edit(id, Read(m.edit))] + [Edit(id, m)] == actions + [Edit(id, Read(m.edit)), Edit(id, m)];
    ReadThenWrite(c, ApplyAll(c, s, actions), id, m);
  }

  lemma ReadThenWrite(c: Catalogue, t: State, id: string, m: Move)
    requires id in t.desks && !m.Read? && Admissible(c, m)
    ensures var read := Apply(c, t, Edit(id, Read(m.edit)));
            && InTime(read, Edit(id, m))
            && Apply(c, read, Edit(id, m)) == t.(desks := t.desks[id := Act(Act(t.desks[id], Read(m.edit)), m)])
  {
    var read := Act(t.desks[id], Read(m.edit));
    assert t.desks[id := read][id := Act(read, m)] == t.desks[id := Act(read, m)];
  }

  function Raise(id: string, n: nat): seq<Action> {
    if n == 0 then [] else Raise(id, n - 1) + [Edit(id, Read(0)), Edit(id, PutSkills(0, []))]
  }

  lemma {:induction false} RaiseRaises(c: Catalogue, s: State, id: string, n: nat, app: string)
    requires id in s.desks
    ensures AllInTime(c, s, Raise(id, n)) && AllLeaveAlone(c, s, Raise(id, n), app)
    ensures var t := ApplyAll(c, s, Raise(id, n));
            id in t.desks && t.desks[id].row.revision == s.desks[id].row.revision + n
    decreases n
  {
    if n > 0 {
      RaiseRaises(c, s, id, n - 1, app);
      OneEditMore(c, s, Raise(id, n - 1), id, PutSkills(0, []), app);
    }
  }

  /** One edit brings a version to the next revision with the image asked for and a new prompt. */
  lemma LastEdit(c: Catalogue, v: Version, image: string, tail: string)
    requires Acceptable(c, AsInput(v)) && Trimmed(image) && image in c.images
    ensures var input := AsInput(v).(prompt := v.config.prompt + tail + "x", image := image);
            var w := Updated(v, input);
            Acceptable(c, input) && w.revision == v.revision + 1 && w.config.image == image
            && w.config.prompt == v.config.prompt + tail + "x"
  {
    TrimOfTrimmed(image);
    PromptIsNotBlank(v.config.prompt + tail, 0);
    assert seq(0 + 1, _ => 'x') == "x";
    assert |v.config.prompt + tail + "x"| > |v.config.prompt|;
  }

  /** Edits raise a version to any later revision, and one more edit then sets prompt and image. */
  lemma EditsReach(c: Catalogue, s: State, id: string, revision: nat, image: string, tail: string, app: string)
    returns (more: seq<Action>)
    requires Inv(c, s) && id in s.desks && revision > s.desks[id].row.revision && Trimmed(image) && image in c.images
    ensures AllInTime(c, s, more) && AllLeaveAlone(c, s, more, app)
    ensures var t := ApplyAll(c, s, more);
            && id in t.desks && t.desks[id].row.revision == revision && t.desks[id].row.config.image == image
            && |t.desks[id].row.config.prompt| > |tail|
  {
    var n := revision - s.desks[id].row.revision - 1;
    RaiseRaises(c, s, id, n, app);
    EqualRevisionsEqualConfigs(c, s, Raise(id, n), id);
    var v := ApplyAll(c, s, Raise(id, n)).desks[id].row;
    LastEdit(c, v, image, tail);
    var input := AsInput(v).(prompt := v.config.prompt + tail + "x", image := image);
    OneEditMore(c, s, Raise(id, n), id, Put(0, input), app);
    more := Raise(id, n) + [Edit(id, Read(0)), Edit(id, Put(0, input))];
  }

  /** Edits can bring the bound version to the stamped revision with another configuration. */
  lemma EditsCatchUp(c: Catalogue, s: State, app: string, image: string)
    requires Inv(c, s) && app in s.apps && s.apps[app].bound in s.desks && s.apps[app].read.Some?
    requires Trimmed(image) && ImageOf(c, image) == Some(s.apps[app].appliedImage)
    requires s.apps[app].appliedRevision > s.desks[s.apps[app].bound].row.revision
    ensures CanMislead(c, s, app)
  {
    var more := EditsReach(c, s, s.apps[app].bound, s.apps[app].appliedRevision, image, s.apps[app].read.value.prompt, app);
    StampLasts(c, s, more, app);
    assert MisledAfter(c, s, app, more);
  }

  /** What makes a stamp misleading, as it can be seen when it is written. */
  predicate StampIsForeign(c: Catalogue, s: State, job: Job)
    requires job.app in s.apps && s.apps[job.app].bound in s.desks
  {
    var v := s.desks[s.apps[job.app].bound].row;
    && job.version != s.apps[job.app].bound
    && (|| job.revision > v.revision
        || (job.revision == v.revision && ImageOf(c, v.config.image) == ImageOf(c, job.config.image) && job.config != v.config))
  }

  /**
   * A stamp can come to mislead exactly when the instance was switched meanwhile and the stamped
   * revision is not already behind the version it is bound to now.
   */
  lemma StampMisleadsExactlyWhen(c: Catalogue, s: State, job: string)
    requires Inv(c, s) && job in s.jobs
    ensures s.jobs[job].app in s.apps && s.apps[s.jobs[job].app].bound in s.desks
    ensures var j, t := s.jobs[job], Apply(c, s, Finish(job));
            j.app in t.apps && t.apps[j.app].bound in t.desks && (CanMislead(c, t, j.app) <==> StampIsForeign(c, s, j))
  {
    assert JobOk(s, s.jobs[job], job in s.served);
    var t, j := Apply(c, s, Finish(job)), s.jobs[job];
    ApplyKeepsInv(c, s, Finish(job));
    StampAsSet(c, s, job);
    if !StampIsForeign(c, s, j) {
      forall more ensures !MisledAfter(c, t, j.app, more) {
        NativeStampHolds(c, t, j.app, more);
      }
    } else if j.revision > s.desks[s.apps[j.app].bound].row.revision {
      EditsCatchUp(c, t, j.app, j.config.image);
    } else {
      assert MisledAfter(c, t, j.app, []);
    }
  }

  lemma StampAsSet(c: Catalogue, s: State, job: string)
    requires job in s.jobs && s.jobs[job].app in s.apps && s.jobs[job].config.image in c.images
    ensures var j, t := s.jobs[job], Apply(c, s, Finish(job));
            && t.desks == s.desks && j.app in t.apps && t.apps[j.app].bound == s.apps[j.app].bound
            && t.apps[j.app].appliedRevision == j.revision && t.apps[j.app].read == Some(j.config)
            && ImageOf(c, j.config.image) == Some(t.apps[j.app].appliedImage)
  {
  }

  /** A stamp that is the bound version's own, or behind it, or stands for the same configuration, never misleads. */
  lemma NativeStampHolds(c: Catalogue, t: State, app: string, more: seq<Action>)
    requires Inv(c, t) && app in t.apps && t.apps[app].bound in t.desks && t.apps[app].read.Some?
    requires var a, v := t.apps[app], t.desks[t.apps[app].bound].row;
             || a.appliedRevision < v.revision
             || (a.appliedRevision == v.revision
                 && (a.read.value == v.config || ImageOf(c, v.config.image) != Some(a.appliedImage)))
    ensures !MisledAfter(c, t, app, more)
  {
    if AllInTime(c, t, more) && AllLeaveAlone(c, t, more, app) {
      StampLasts(c, t, more, app);
      EqualRevisionsEqualConfigs(c, t, more, t.apps[app].bound);
    }
  }
}
