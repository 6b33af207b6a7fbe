/**
 One gate per cache path, held by weak references: the registry forgets a gate
 when nobody uses it, and still two permits for one path never coexist.
 */
module KeyGates {

  // A gate is known by its place in the order of allocation.
  type Path = nat
  type Gate = nat
  type Task = nat

  // Where a task is with the gate it holds a reference to: waiting for it,
  // working under its permit, or past the permit with the reference still to drop.
  datatype Phase = Waiting(gate: Gate) | Holding(gate: Gate) | Dropping(gate: Gate)

  datatype State = State(
    paths: seq<Path>,
    active: set<Gate>,
    registry: map<Path, Gate>,
    tasks: map<Task, Phase>)

  datatype Action =
    | Asks(asker: Task, path: Path)
    | Locks(locker: Task)
    | GivesUp(quitter: Task)
    | Releases(releaser: Task)
    | Drops(dropper: Task)

  // Some task holds a strong reference.
  predicate Alive(tasks: map<Task, Phase>, g: Gate) {
    exists t :: t in tasks && tasks[t].gate == g
  }

  // Under the registry lock: forget dead gates, then find the path's gate or make one.
  function Ask(s: State, t: Task, path: Path): State {
    var kept := map p | p in s.registry && Alive(s.tasks, s.registry[p]) :: s.registry[p];
    if path in kept then s.(registry := kept, tasks := s.tasks[t := Waiting(kept[path])])
    else s.(paths := s.paths + [path], registry := kept[path := |s.paths|], tasks := s.tasks[t := Waiting(|s.paths|)])
  }

  function Step(s: State, a: Action): State {
    match a
    case Asks(t, path) => if t in s.tasks then s else Ask(s, t, path)
    case Locks(t) =>
      if t in s.tasks && s.tasks[t].Waiting? && s.tasks[t].gate !in s.active
      then s.(active := s.active + {s.tasks[t].gate}, tasks := s.tasks[t := Holding(s.tasks[t].gate)]) else s
    case GivesUp(t) =>
      if t in s.tasks && s.tasks[t].Waiting? then s.(tasks := s.tasks - {t}) else s
    case Releases(t) =>
      if t in s.tasks && s.tasks[t].Holding?
      then s.(active := s.active - {s.tasks[t].gate}, tasks := s.tasks[t := Dropping(s.tasks[t].gate)]) else s
    case Drops(t) =>
      if t in s.tasks && s.tasks[t].Dropping? then s.(tasks := s.tasks - {t}) else s
  }

  function Start(): State { State([], {}, map[], map[]) }

  predicate Held(tasks: map<Task, Phase>, g: Gate) {
    exists t :: t in tasks && tasks[t] == Holding(g)
  }

  // A gate in use is the one its path is registered under; a gate is active
  // exactly while one task holds its permit.
  ghost predicate Valid(s: State) {
    && (forall t <- s.tasks :: s.tasks[t].gate < |s.paths|)
    && (forall t <- s.tasks :: s.paths[s.tasks[t].gate] in s.registry && s.registry[s.paths[s.tasks[t].gate]] == s.tasks[t].gate)
    && (forall p <- s.registry :: s.registry[p] < |s.paths| && s.paths[s.registry[p]] == p)
    && (forall t <- s.tasks :: s.tasks[t].Holding? ==> s.tasks[t].gate in s.active)
    && (forall g <- s.active :: Held(s.tasks, g))
    && (forall a, b | a in s.tasks && b in s.tasks && s.tasks[a].Holding? && s.tasks[b].Holding? && s.tasks[a].gate == s.tasks[b].gate :: a == b)
  }

  // What a task does to its own phase leaves other holders alone.
  lemma StillHeld(a: map<Task, Phase>, b: map<Task, Phase>, t: Task, g: Gate)
    requires Held(a, g) && (t in a ==> a[t] != Holding(g))
    requires forall u <- a | u != t :: u in b && b[u] == a[u]
    ensures Held(b, g)
  {
    var u :| u in a && a[u] == Holding(g);
    assert b[u] == Holding(g);
  }

  lemma StepHolds(s: State, a: Action)
    requires Valid(s)
    ensures forall g <- Step(s, a).active :: Held(Step(s, a).tasks, g)
  {
    var r := Step(s, a);
    var t := match a case Asks(t, _) => t case Locks(t) => t case GivesUp(t) => t case Releases(t) => t case Drops(t) => t;
    if r != s {
      forall g <- r.active ensures Held(r.tasks, g) {
        if a.Locks? && g == s.tasks[t].gate {
          assert r.tasks[t] == Holding(g);
        } else {
          StillHeld(s.tasks, r.tasks, t, g);
        }
      }
    }
  }

  lemma StepKeeps(s: State, a: Action)
    requires Valid(s)
    ensures Valid(Step(s, a))
  {
    StepHolds(s, a);
    hide Held, Alive;
    if a.Asks? && a.asker !in s.tasks {
      assert Step(s, a) == Ask(s, a.asker, a.path) && Step(s, a).active == s.active;
      AskKeeps(s, a.asker, a.path);
    }
  }

  // No gate in use is forgotten.
  lemma KeepsLive(s: State, t: Task, path: Path, u: Task)
    requires Valid(s) && t !in s.tasks && u in s.tasks
    ensures var r, p := Ask(s, t, path), s.paths[s.tasks[u].gate];
      u in r.tasks && r.tasks[u] == s.tasks[u] && p in r.registry && r.registry[p] == s.tasks[u].gate
  {
    hide Held;
    assert Alive(s.tasks, s.registry[s.paths[s.tasks[u].gate]]);
  }

  lemma AskKeeps(s: State, t: Task, path: Path)
    requires Valid(s) && t !in s.tasks && forall g <- s.active :: Held(Ask(s, t, path).tasks, g)
    ensures Valid(Ask(s, t, path))
  {
    hide Held, Alive;
    var r := Ask(s, t, path);
    forall u <- s.tasks
      ensures u in r.tasks && r.tasks[u] == s.tasks[u] && s.paths[s.tasks[u].gate] in r.registry
      ensures r.registry[s.paths[s.tasks[u].gate]] == s.tasks[u].gate
    {
      KeepsLive(s, t, path, u);
    }
  }

  function Run(s: State, actions: seq<Action>): State
    decreases |actions|
  {
    if actions == [] then s else Step(Run(s, actions[..|actions| - 1]), actions[|actions| - 1])
  }

  // In every reachable state at most one permit is live per cache path.
  lemma {:induction false} OnePermit(actions: seq<Action>, a: Task, b: Task)
    ensures Valid(Run(Start(), actions))
    ensures var s := Run(Start(), actions);
      && a in s.tasks && b in s.tasks && s.tasks[a].Holding? && s.tasks[b].Holding?
      && s.tasks[a].gate < |s.paths| && s.tasks[b].gate < |s.paths| && s.paths[s.tasks[a].gate] == s.paths[s.tasks[b].gate]
      ==> a == b
    decreases |actions|
  {
    if actions != [] {
      OnePermit(actions[..|actions| - 1], a, b);
      StepKeeps(Run(Start(), actions[..|actions| - 1]), actions[|actions| - 1]);
    }
  }

  // A task that waits gets the permit exactly if no task holds one for its path.
  lemma LockGranted(s: State, t: Task)
    requires Valid(s) && t in s.tasks && s.tasks[t].Waiting?
    ensures var g := s.tasks[t].gate;
      Step(s, Locks(t)).tasks[t] ==
        if exists u :: u in s.tasks && s.tasks[u].Holding? && s.paths[s.tasks[u].gate] == s.paths[g] then Waiting(g) else Holding(g)
  {
    var g := s.tasks[t].gate;
    if g in s.active {
      assert Held(s.tasks, g);
      var u :| u in s.tasks && s.tasks[u] == Holding(g);
      assert s.paths[s.tasks[u].gate] == s.paths[g];
    }
  }

  // A task that asks waits for a gate of its path, and the registry then knows
  // only gates that somebody uses.
  lemma AskedGate(s: State, t: Task, path: Path)
    requires Valid(s) && t !in s.tasks
    ensures var r := Step(s, Asks(t, path));
      && t in r.tasks && r.tasks[t].Waiting? && r.tasks[t].gate < |r.paths| && r.paths[r.tasks[t].gate] == path
      && forall p <- r.registry :: Alive(r.tasks, r.registry[p])
  {
    hide Held;
    var r := Ask(s, t, path);
    forall p <- r.registry ensures Alive(r.tasks, r.registry[p]) {
      if r.registry[p] == r.tasks[t].gate {
        assert t in r.tasks;
      } else {
        var u :| u in s.tasks && s.tasks[u].gate == s.registry[p];
        assert r.tasks[u] == s.tasks[u];
      }
    }
  }

  // A permit given back goes to the next task of the path that locks.
  lemma ReleaseFrees(s: State, t: Task, u: Task)
    requires Valid(s) && t in s.tasks && s.tasks[t].Holding? && u in s.tasks && s.tasks[u].Waiting?
    requires s.paths[s.tasks[u].gate] == s.paths[s.tasks[t].gate]
    ensures Step(Step(s, Releases(t)), Locks(u)).tasks[u] == Holding(s.tasks[t].gate)
  {
    var r := Step(s, Releases(t));
    StepKeeps(s, Releases(t));
    LockGranted(r, u);
    assert r.paths == s.paths && r.tasks[u] == s.tasks[u];
    assert s.tasks[u].gate == s.registry[s.paths[s.tasks[u].gate]] == s.tasks[t].gate;
  }
}
