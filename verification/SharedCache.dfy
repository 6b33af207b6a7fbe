/**
 One cache, many tasks: the file steps of concurrent attempts interleaved under
 the gates of their paths, with sources that are written to at any time and a
 process that may stop.
 */
module SharedCache {
  import opened Wrappers
  import opened RenditionCache
  import Gates = KeyGates

  type Path = Gates.Path
  type Task = Gates.Task

  // A cache path belongs to one revision of a Source, whose content it is for.
  datatype World = World(tools: Tools, source: Path -> Content) {
    function Expected(p: Path): string { tools.fingerprint(source(p)) }
  }

  // Besides gates, tasks and files: what each record's rendering was made of, and
  // the paths for which somebody has been served.
  datatype State = State(
    gates: Gates.State,
    stages: map<Task, Stage>,
    files: map<Path, Files>,
    origin: map<Path, Content>,
    served: set<Path>)

  datatype Action =
    | Begins(beginner: Task, path: Path, seen: Content)
    | Locks(locker: Task)
    | Abandons(quitter: Task)
    | Works(worker: Task, step: FileStep)
    | Releases(releaser: Task)
    | Drops(dropper: Task)
    | Stops

  function Beginner(a: Action): set<Task> { if a.Begins? then {a.beginner} else {} }

  function At(files: map<Path, Files>, p: Path): Files {
    if p in files then files[p] else Files(None, None)
  }

  predicate Holds(gates: Gates.State, t: Task) {
    t in gates.tasks && gates.tasks[t].Holding? && gates.tasks[t].gate < |gates.paths|
  }

  function PathOf(gates: Gates.State, t: Task): Path
    requires Holds(gates, t)
  {
    gates.paths[gates.tasks[t].gate]
  }

  // A file step happens only under the permit of the path.
  function Work(w: World, s: State, t: Task, step: FileStep): State
    requires Holds(s.gates, t) && t in s.stages
  {
    var p, at := PathOf(s.gates, t), s.stages[t];
    var (next, files) := Advance(w.tools, w.Expected(p), at, At(s.files, p), step);
    s.(stages := s.stages[t := next],
       files := s.files[p := files],
       origin := if step.PlacesRecord? && at.Placed? then s.origin[p := at.shown] else s.origin,
       served := if next.Done? then s.served + {p} else s.served)
  }

  function Step(w: World, s: State, a: Action): State {
    match a
    case Begins(t, p, seen) =>
      if t in s.gates.tasks || w.tools.fingerprint(seen) != w.Expected(p) then s
      else s.(gates := Gates.Step(s.gates, Gates.Asks(t, p)), stages := s.stages[t := Ready])
    case Locks(t) => s.(gates := Gates.Step(s.gates, Gates.Locks(t)))
    case Abandons(t) =>
      if t in s.gates.tasks && s.gates.tasks[t].Waiting?
      then s.(gates := Gates.Step(s.gates, Gates.GivesUp(t)), stages := s.stages - {t}) else s
    case Works(t, step) => if Holds(s.gates, t) && t in s.stages then Work(w, s, t, step) else s
    // A permit is released when the attempt returns, wherever it is.
    case Releases(t) => s.(gates := Gates.Step(s.gates, Gates.Releases(t)))
    case Drops(t) =>
      if t in s.gates.tasks && s.gates.tasks[t].Dropping?
      then s.(gates := Gates.Step(s.gates, Gates.Drops(t)), stages := s.stages - {t}) else s
    // Another process finds the files as they are.
    case Stops => s.(gates := Gates.Start(), stages := map[])
  }

  // A task begins exactly if what it finds is the content that the path is for.
  lemma BegunExactly(w: World, s: State, t: Task, p: Path, seen: Content)
    requires Sound(w.tools) && t !in s.gates.tasks
    ensures var r := Step(w, s, Begins(t, p, seen));
      && (t in r.gates.tasks <==> seen == w.source(p))
      && (t in r.gates.tasks ==> t in r.stages && r.stages[t].Ready?)
      && r.files == s.files && r.origin == s.origin && r.served == s.served
  {
  }

  // The cache directory may be new.
  function Start(): State { State(Gates.Start(), map[], map[], map[], {}) }

  function Run(w: World, s: State, actions: seq<Action>): State
    decreases |actions|
  {
    if actions == [] then s else Step(w, Run(w, s, actions[..|actions| - 1]), actions[|actions| - 1])
  }

  /** What every reachable state satisfies. */

  // What the holder of a permit may rely on.
  ghost predicate Relies(w: World, p: Path, at: Stage, files: Files, served: bool) {
    match at
    case Ready => true
    case Stale => !served
    case Untargeted => !served && files.target.None?
    case Bare => !served && files == Files(None, None)
    case Rendered(shown) => !served && files == Files(None, None) && w.tools.render(shown).Some?
    case Placed(shown) => !served && files == Files(w.tools.render(shown), None) && w.tools.render(shown).Some?
    case Complete => Hit(w.tools, files, w.Expected(p))
    case Done => served
    case Left => true
  }

  ghost predicate Staged(s: State) {
    && s.stages.Keys == s.gates.tasks.Keys
    && forall t <- s.stages :: s.gates.tasks[t].Waiting? ==> s.stages[t].Ready?
  }

  ghost predicate Guarded(w: World, s: State) {
    forall t | t in s.stages && Holds(s.gates, t) ::
      var p := PathOf(s.gates, t); Relies(w, p, s.stages[t], At(s.files, p), p in s.served)
  }

  ghost predicate Standing(w: World, s: State) {
    forall p <- s.served :: Hit(w.tools, At(s.files, p), w.Expected(p))
  }

  // Every record was made of what its origin says.
  ghost predicate Recorded(w: World, s: State) {
    forall p <- s.files | s.files[p].integrity.Some? ::
      && p in s.origin && w.tools.render(s.origin[p]).Some?
      && s.files[p].integrity == Published(w.tools, w.Expected(p), s.origin[p]).integrity
  }

  ghost predicate Inv(w: World, s: State) {
    Gates.Valid(s.gates) && Staged(s) && Guarded(w, s) && Standing(w, s) && Recorded(w, s)
  }

  // Two holders are at different paths.
  lemma HoldersApart(s: State, a: Task, b: Task)
    requires Gates.Valid(s.gates) && Holds(s.gates, a) && Holds(s.gates, b) && PathOf(s.gates, a) == PathOf(s.gates, b)
    ensures a == b
  {
    hide Gates.Held;
  }

  // A step leaves the holder what it relies on, and a served hit as it is.
  lemma AdvanceRelies(w: World, p: Path, at: Stage, files: Files, served: bool, step: FileStep)
    requires Sound(w.tools) && Relies(w, p, at, files, served) && (served ==> Hit(w.tools, files, w.Expected(p)))
    ensures var (next, after) := Advance(w.tools, w.Expected(p), at, files, step);
      && Relies(w, p, next, after, served || next.Done?)
      && (served ==> after == files)
      && (next.Done? ==> Hit(w.tools, after, w.Expected(p)))
  {
    if at.Placed? && step.PlacesRecord? {
      PublishedExact(w.tools, w.source(p), at.shown);
    }
  }

  lemma AdvanceRecords(w: World, p: Path, at: Stage, files: Files, step: FileStep, served: bool)
    requires Relies(w, p, at, files, served)
    ensures var (next, after) := Advance(w.tools, w.Expected(p), at, files, step);
      if at.Placed? && step.PlacesRecord?
      then w.tools.render(at.shown).Some? && after.integrity == Published(w.tools, w.Expected(p), at.shown).integrity
      else after.integrity.None? || after.integrity == files.integrity
  {
    hide Hit;
  }

  lemma WorkGuarded(w: World, s: State, t: Task, step: FileStep)
    requires Sound(w.tools) && Inv(w, s) && Holds(s.gates, t) && t in s.stages
    ensures Guarded(w, Work(w, s, t, step)) && Standing(w, Work(w, s, t, step))
    ensures forall p <- s.served :: At(Work(w, s, t, step).files, p) == At(s.files, p)
  {
    hide Gates.Valid, Hit, Sound, Advance, Relies, Recorded;
    var p, r := PathOf(s.gates, t), Work(w, s, t, step);
    AdvanceRelies(w, p, s.stages[t], At(s.files, p), p in s.served, step);
    forall u | u in r.stages && Holds(r.gates, u)
      ensures var q := PathOf(r.gates, u); Relies(w, q, r.stages[u], At(r.files, q), q in r.served)
    {
      if u != t && PathOf(s.gates, u) == p { HoldersApart(s, u, t); }
    }
  }

  lemma WorkKeeps(w: World, s: State, t: Task, step: FileStep)
    requires Sound(w.tools) && Inv(w, s) && Holds(s.gates, t) && t in s.stages
    ensures Inv(w, Work(w, s, t, step))
    ensures forall p <- s.served :: At(Work(w, s, t, step).files, p) == At(s.files, p)
  {
    hide Gates.Valid, Hit, Sound, Advance, Standing, Relies, RecordOf;
    WorkGuarded(w, s, t, step);
    var p := PathOf(s.gates, t);
    AdvanceRecords(w, p, s.stages[t], At(s.files, p), step, p in s.served);
    hide Guarded;
  }

  // Who holds a permit now has held it before or was waiting for it.
  ghost predicate Moves(g: Gates.State, r: Gates.State, beginner: set<Task>) {
    && g.paths <= r.paths
    && (forall u <- r.tasks :: r.tasks[u].Holding? ==> u in g.tasks && r.tasks[u].gate == g.tasks[u].gate && !g.tasks[u].Dropping?)
    && (forall u <- r.tasks :: r.tasks[u].Waiting? ==> u in beginner || (u in g.tasks && g.tasks[u].Waiting?))
  }

  lemma GateMoves(g: Gates.State, a: Gates.Action)
    requires Gates.Valid(g)
    ensures Moves(g, Gates.Step(g, a), if a.Asks? then {a.asker} else {})
    ensures a.Asks? && a.asker !in g.tasks ==> Gates.Step(g, a).tasks.Keys == g.tasks.Keys + {a.asker}
    ensures !a.Asks? ==> Gates.Step(g, a).tasks.Keys <= g.tasks.Keys
    ensures a.Locks? || a.Releases? ==> Gates.Step(g, a).tasks.Keys == g.tasks.Keys
    ensures Gates.Valid(Gates.Step(g, a))
  {
    hide Gates.Held, Gates.Alive, Gates.Valid;
    Gates.StepKeeps(g, a);
  }

  // Only gates and arrivals.
  ghost predicate Outside(s: State, r: State, beginner: set<Task>) {
    && Moves(s.gates, r.gates, beginner) && r.stages.Keys == r.gates.tasks.Keys
    && r.files == s.files && r.served == s.served && r.origin == s.origin
    && forall u <- r.stages :: if u in beginner then r.stages[u] == Ready else u in s.stages && r.stages[u] == s.stages[u]
  }

  lemma HolderStays(s: State, r: State, beginner: set<Task>, u: Task)
    requires Gates.Valid(s.gates) && Staged(s) && Outside(s, r, beginner)
    requires u in r.stages && Holds(r.gates, u) && !r.stages[u].Ready?
    ensures u in s.stages && Holds(s.gates, u) && PathOf(s.gates, u) == PathOf(r.gates, u) && s.stages[u] == r.stages[u]
  {
    hide Gates.Held;
  }

  lemma GuardedMoves(w: World, s: State, r: State, beginner: set<Task>)
    requires Gates.Valid(s.gates) && Staged(s) && Guarded(w, s) && Outside(s, r, beginner)
    ensures Guarded(w, r) && Staged(r)
  {
    hide Relies, Gates.Valid;
    forall u | u in r.stages && Holds(r.gates, u)
      ensures var p := PathOf(r.gates, u); Relies(w, p, r.stages[u], At(r.files, p), p in r.served)
    {
      if r.stages[u].Ready? {
        ReliesReady(w, PathOf(r.gates, u), At(r.files, PathOf(r.gates, u)), PathOf(r.gates, u) in r.served);
      } else {
        HolderStays(s, r, beginner, u);
      }
    }
  }

  lemma ReliesReady(w: World, p: Path, files: Files, served: bool)
    ensures Relies(w, p, Ready, files, served)
  {
  }

  lemma GatesOnly(s: State, w: World, a: Action)
    requires Gates.Valid(s.gates) && Staged(s) && !a.Works? && !a.Stops?
    ensures Gates.Valid(Step(w, s, a).gates)
    ensures Step(w, s, a) == s || Outside(s, Step(w, s, a), Beginner(a))
  {
    var r := Step(w, s, a);
    hide Gates.Valid, Gates.Step, Moves;
    match a
    case Begins(t, p, _) => GateMoves(s.gates, Gates.Asks(t, p));
    case Locks(t) => GateMoves(s.gates, Gates.Locks(t));
    case Abandons(t) => GateMoves(s.gates, Gates.GivesUp(t)); Leaves(s.gates, t);
    case Releases(t) => GateMoves(s.gates, Gates.Releases(t));
    case Drops(t) => GateMoves(s.gates, Gates.Drops(t)); Leaves(s.gates, t);
  }

  lemma GatesKeep(w: World, s: State, a: Action)
    requires Inv(w, s) && !a.Works? && !a.Stops?
    ensures Inv(w, Step(w, s, a)) && Step(w, s, a).files == s.files && Step(w, s, a).served == s.served
  {
    hide Gates.Valid, Guarded, Step, Hit, Published, Moves;
    GatesOnly(s, w, a);
    if Step(w, s, a) != s { GuardedMoves(w, s, Step(w, s, a), Beginner(a)); }
  }

  lemma Leaves(g: Gates.State, t: Task)
    ensures t in g.tasks && g.tasks[t].Waiting? ==> Gates.Step(g, Gates.GivesUp(t)).tasks.Keys == g.tasks.Keys - {t}
    ensures t in g.tasks && g.tasks[t].Dropping? ==> Gates.Step(g, Gates.Drops(t)).tasks.Keys == g.tasks.Keys - {t}
  {
  }

  lemma StepKeeps(w: World, s: State, a: Action)
    requires Sound(w.tools) && Inv(w, s)
    ensures Inv(w, Step(w, s, a))
    ensures forall p <- s.served :: p in Step(w, s, a).served && At(Step(w, s, a).files, p) == At(s.files, p)
  {
    hide Gates.Held, Hit, Published, Advance;
    match a
    case Works(t, step) => if Holds(s.gates, t) && t in s.stages { WorkKeeps(w, s, t, step); }
    case Stops =>
    case _ => GatesKeep(w, s, a);
  }

  lemma StartHolds(w: World)
    ensures Inv(w, Start())
  {
  }

  /** Over every run. */

  // Once somebody has been served, the files of that path stay as they are and a
  // hit, whoever else works on the path and however often the process stops.
  lemma {:induction false} ServedStands(w: World, s: State, actions: seq<Action>)
    requires Sound(w.tools) && Inv(w, s)
    ensures Inv(w, Run(w, s, actions))
    ensures forall p <- s.served :: p in Run(w, s, actions).served && At(Run(w, s, actions).files, p) == At(s.files, p)
    ensures forall p <- s.served :: Hit(w.tools, At(s.files, p), w.Expected(p))
    decreases |actions|
  {
    hide Step, Hit, Sound, Gates.Valid, Staged, Guarded, Recorded;
    if actions != [] {
      ServedStands(w, s, actions[..|actions| - 1]);
      StepKeeps(w, Run(w, s, actions[..|actions| - 1]), actions[|actions| - 1]);
    }
  }

  // In every reachable state a record is true exactly if what was read for its
  // rendering renders as the source does; and so is what is served.
  lemma RecordExact(w: World, actions: seq<Action>, p: Path)
    requires Sound(w.tools)
    ensures var s := Run(w, Start(), actions);
      At(s.files, p).integrity.Some? ==>
        && p in s.origin
        && (Truthful(w.tools, At(s.files, p)) <==> w.tools.render(s.origin[p]) == w.tools.render(w.source(p)))
        && (p in s.served ==> At(s.files, p).target == w.tools.render(s.origin[p]) && w.tools.render(s.origin[p]).Some?)
    ensures p in Run(w, Start(), actions).served ==> Hit(w.tools, At(Run(w, Start(), actions).files, p), w.Expected(p))
  {
    StartHolds(w);
    ServedStands(w, Start(), actions);
    hide Run, Gates.Valid, Staged, Guarded;
    var s := Run(w, Start(), actions);
    if p in s.files && s.files[p].integrity.Some? {
      PublishedExact(w.tools, w.source(p), s.origin[p]);
      SameRecord(w.tools, s.files[p], Published(w.tools, w.Expected(p), s.origin[p]));
    }
  }

  lemma SameRecord(tools: Tools, a: Files, b: Files)
    requires Sound(tools) && a.integrity == b.integrity
    ensures Truthful(tools, a) <==> Truthful(tools, b)
    ensures (a.integrity.Some? && a.target.Some? && b.target.Some?
             && tools.fingerprint(a.target.value) == a.integrity.value.output == tools.fingerprint(b.target.value)) ==> a.target == b.target
  {
  }

  /** Renderings that read what renders as the source does. */

  ghost predicate Plain(w: World, s: State, a: Action) {
    a.Works? && a.step.Renders? && Holds(s.gates, a.worker) ==>
      w.tools.render(a.step.shown) == w.tools.render(w.source(PathOf(s.gates, a.worker)))
  }

  ghost predicate PlainRun(w: World, s: State, actions: seq<Action>)
    decreases |actions|
  {
    actions == [] ||
      (PlainRun(w, s, actions[..|actions| - 1]) && Plain(w, Run(w, s, actions[..|actions| - 1]), actions[|actions| - 1]))
  }

  // What an attempt has read for its rendering, if it is that far.
  function Read(at: Stage): set<Content> { if at.Rendered? || at.Placed? then {at.shown} else {} }

  ghost predicate Faithful(w: World, s: State) {
    && (forall p <- s.origin :: w.tools.render(s.origin[p]) == w.tools.render(w.source(p)))
    && (forall t, c | t in s.stages && Holds(s.gates, t) && c in Read(s.stages[t]) ::
          w.tools.render(c) == w.tools.render(w.source(PathOf(s.gates, t))))
  }

  lemma ReadOnce(w: World, p: Path, at: Stage, files: Files, step: FileStep)
    ensures var next := Advance(w.tools, w.Expected(p), at, files, step).0;
      forall c <- Read(next) :: c in Read(at) || (step.Renders? && c == step.shown)
  {
    hide Hit;
  }

  lemma StepFaithful(w: World, s: State, a: Action)
    requires Sound(w.tools) && Inv(w, s) && Faithful(w, s) && Plain(w, s, a)
    ensures Faithful(w, Step(w, s, a))
  {
    hide Gates.Valid, Gates.Step, Hit, Published, Advance, Sound, Guarded, Standing, Recorded, Moves;
    match a
    case Works(t, step) =>
      if Holds(s.gates, t) && t in s.stages {
        ReadOnce(w, PathOf(s.gates, t), s.stages[t], At(s.files, PathOf(s.gates, t)), step);
        assert s.stages[t].Placed? ==> s.stages[t].shown in Read(s.stages[t]);
      }
    case Stops =>
    case _ =>
      GatesOnly(s, w, a);
      var r, beginner := Step(w, s, a), Beginner(a);
      hide Step;
      if r != s {
        forall u, c | u in r.stages && Holds(r.gates, u) && c in Read(r.stages[u])
          ensures w.tools.render(c) == w.tools.render(w.source(PathOf(r.gates, u)))
        {
          HolderStays(s, r, beginner, u);
        }
      }
  }

  // Then every record is true, and whatever is served is the rendering of the
  // source it was asked for.
  lemma {:induction false} PlainFaithful(w: World, actions: seq<Action>)
    requires Sound(w.tools) && PlainRun(w, Start(), actions)
    ensures Faithful(w, Run(w, Start(), actions))
    decreases |actions|
  {
    hide Step, Inv, Plain, Sound, Gates.Start;
    if actions != [] {
      var before := actions[..|actions| - 1];
      PlainFaithful(w, before);
      StartHolds(w);
      ServedStands(w, Start(), before);
      StepFaithful(w, Run(w, Start(), before), actions[|actions| - 1]);
    }
  }

  lemma PlainServes(w: World, actions: seq<Action>, p: Path)
    requires Sound(w.tools) && PlainRun(w, Start(), actions)
    ensures Truthful(w.tools, At(Run(w, Start(), actions).files, p))
    ensures p in Run(w, Start(), actions).served ==>
      && Hit(w.tools, At(Run(w, Start(), actions).files, p), w.Expected(p))
      && At(Run(w, Start(), actions).files, p).target == w.tools.render(w.source(p))
  {
    PlainFaithful(w, actions);
    RecordExact(w, actions, p);
    hide Run, PlainRun, Sound;
  }

  /** A source written over while it was rendered, and written back. */

  function Working(t: Task, steps: seq<FileStep>): seq<Action> {
    seq(|steps|, i requires 0 <= i < |steps| => Works(t, steps[i]))
  }

  lemma {:induction false} RunJoins(w: World, s: State, a: seq<Action>, b: seq<Action>)
    ensures Run(w, s, a + b) == Run(w, Run(w, s, a), b)
    decreases |b|
  {
    hide Step;
    if b == [] {
      assert a + b == a;
    } else {
      assert (a + b)[..|a + b| - 1] == a + b[..|b| - 1];
      RunJoins(w, s, a, b[..|b| - 1]);
    }
  }

  // A task that nobody disturbs goes through its attempt.
  lemma {:induction false} AttemptRuns(w: World, s: State, t: Task, steps: seq<FileStep>)
    requires Holds(s.gates, t) && t in s.stages && !s.stages[t].Done?
    ensures var r, p := Run(w, s, Working(t, steps)), PathOf(s.gates, t);
      && r.gates == s.gates && t in r.stages
      && (r.stages[t], At(r.files, p)) == Attempt(w.tools, w.Expected(p), s.stages[t], At(s.files, p), steps)
      && (r.stages[t].Done? ==> p in r.served)
    decreases |steps|
  {
    hide Advance;
    if steps != [] {
      var before := steps[..|steps| - 1];
      AttemptRuns(w, s, t, before);
      assert Working(t, steps)[..|steps| - 1] == Working(t, before);
    }
  }

  function Overwriting(w: World, p: Path, shown: Content): seq<FileStep> {
    [Looks, RemovesTarget, RemovesRecord, Renders(shown, w.source(p)), PlacesTarget, PlacesRecord, Serves]
  }

  // The run: the first task for a path finds nothing, the source is written over
  // before it is decoded and written back before its fingerprint is taken again.
  function OverwrittenRun(w: World, p: Path, shown: Content): seq<Action> {
    [Begins(0, p, w.source(p)), Locks(0)] + Working(0, Overwriting(w, p, shown))
  }

  lemma OverwrittenAttempt(w: World, p: Path, shown: Content)
    requires w.tools.render(shown).Some?
    ensures Attempt(w.tools, w.Expected(p), Ready, Files(None, None), Overwriting(w, p, shown))
         == (Done, Published(w.tools, w.Expected(p), shown))
  {
    hide Attempt;
    var tools, e, none, all := w.tools, w.Expected(p), Files(None, None), Overwriting(w, p, shown);
    FirstStep(tools, e, Ready, none, Looks);
    OneStep(tools, e, Ready, none, [Looks], RemovesTarget);
    OneStep(tools, e, Ready, none, [Looks] + [RemovesTarget], RemovesRecord);
    OneStep(tools, e, Ready, none, [Looks] + [RemovesTarget] + [RemovesRecord], all[3]);
    assert [Looks] + [RemovesTarget] + [RemovesRecord] + [all[3]] == all[..4];
    OneStep(tools, e, Ready, none, all[..4], PlacesTarget);
    assert all[..4] + [PlacesTarget] == all[..5];
    OneStep(tools, e, Ready, none, all[..5], PlacesRecord);
    assert all[..5] + [PlacesRecord] == all[..6];
    OneStep(tools, e, Ready, none, all[..6], Serves);
    assert all[..6] + [Serves] == all;
  }

  lemma Arrives(w: World, p: Path)
    ensures var s := Run(w, Start(), [Begins(0, p, w.source(p)), Locks(0)]);
      && Holds(s.gates, 0) && PathOf(s.gates, 0) == p && s.stages == map[0 := Ready] && At(s.files, p) == Files(None, None)
  {
    var first := Begins(0, p, w.source(p));
    assert [first, Locks(0)][..1] == [first] && [first][..0] == [];
    assert Run(w, Start(), [first]) == Step(w, Start(), first);
  }

  // It ends with a served hit that is not the rendering of the source.
  lemma WrittenOver(w: World, p: Path, shown: Content)
    requires Sound(w.tools) && w.tools.render(shown).Some? && w.tools.render(shown) != w.tools.render(w.source(p))
    ensures var s := Run(w, Start(), OverwrittenRun(w, p, shown));
      && p in s.served && Hit(w.tools, At(s.files, p), w.Expected(p))
      && !Truthful(w.tools, At(s.files, p)) && At(s.files, p).target != w.tools.render(w.source(p))
  {
    var front := [Begins(0, p, w.source(p)), Locks(0)];
    Arrives(w, p);
    OverwrittenAttempt(w, p, shown);
    PublishedExact(w.tools, w.source(p), shown);
    hide Run, Attempt, Hit, Truthful, Sound;
    RunJoins(w, Start(), front, Working(0, Overwriting(w, p, shown)));
    AttemptRuns(w, Run(w, Start(), front), 0, Overwriting(w, p, shown));
  }

  // Without the permit a task that has looked too early takes away what another
  // one has just been served.
  lemma Unguarded(w: World, p: Path)
    requires Sound(w.tools) && w.tools.render(w.source(p)).Some?
    ensures var none, e := Files(None, None), w.Expected(p);
      var (one, seen) := Advance(w.tools, e, Ready, none, Looks);
      var (two, files) := Attempt(w.tools, e, Ready, seen, Overwriting(w, p, w.source(p)));
      two == Done && Hit(w.tools, files, e) && !Hit(w.tools, Advance(w.tools, e, one, files, RemovesTarget).1, e)
  {
    OverwrittenAttempt(w, p, w.source(p));
    PublishedExact(w.tools, w.source(p), w.source(p));
  }
}
