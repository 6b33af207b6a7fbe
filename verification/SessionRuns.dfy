/**
 The commands of the session as steps of a run: what each of them does to the
 Library, and that the scan or rendition which it starts can go on to its end.
 */
module SessionRuns {
  import opened Wrappers
  import opened Tables
  import opened Commands
  import opened History
  import Session = LibrarySession
  import ScanHistory

  /** Scans. */

  lemma InvStored(s: State)
    requires Inv(s)
    ensures Session.Stored(s.t) && Consistent(s.t)
  {
    assert Linked(s.t) && Drawn(s.t);
    assert Filed(s.t.members, s.t.collections.Keys, s.t.assets.Keys) by { LinkedFiled(s.t); }
  }

  // A started scan has its job, and a thread that can run it from the beginning.
  ghost predicate Launched(s: State, r: State, root: Id, job: Id) {
    && Session.Started(s.t, r.t, root, job) && r.works == s.works
    && job !in s.scans && r.scans == s.scans[job := root] && ScanHistory.Fresh(r, job)
  }

  lemma Launches(s: State, r: State, a: Action, root: Id, job: Id)
    requires Inv(s) && r == Step(s, a) && job !in s.t.jobs
    requires Session.Started(s.t, r.t, root, job) && r.works == s.works && r.scans == s.scans[job := root]
    ensures Launched(s, r, root, job)
  {
    hide Inv, Step, Consistent, Session.Stored;
    StepKeeps(s, a);
    InvStored(r);
    NotScanned(s, job);
  }

  lemma NotScanned(s: State, job: Id)
    requires Inv(s) && job !in s.t.jobs
    ensures job !in s.scans
  {
    hide Consistent, WithinLimits, Manned;
  }

  // Adding a Root, or scanning again one that is there.
  lemma AddRuns(s: State, found: Option<Id>, display: string)
    requires Inv(s)
    ensures var r := Step(s, AddsRoot(found, display));
      match Commands.AddRoot(s.t, found, display)
      case Err(_) => r == s
      case Ok(_) => Launched(s, r, if found.Some? then found.value else s.t.drawn, if found.Some? then s.t.drawn else s.t.drawn + 1)
  {
    hide Inv, Session.Started, Session.Stored, Consistent, Launched, SameRows, StartScan, Busy;
    InvStored(s);
    if Commands.AddRoot(s.t, found, display).Ok? {
      var root, job := if found.Some? then found.value else s.t.drawn, if found.Some? then s.t.drawn else s.t.drawn + 1;
      Session.AddMeans(s.t, found, display);
      NotThere(s, job);
      Launches(s, Step(s, AddsRoot(found, display)), AddsRoot(found, display), root, job);
    }
  }

  lemma RescanRuns(s: State, root: Id, authorized: set<Id>)
    requires Inv(s)
    ensures var r := Step(s, ScansRoot(root, authorized));
      match Commands.ScanRoot(s.t, root, authorized)
      case Err(_) => r == s
      case Ok(_) => Launched(s, r, root, s.t.drawn)
  {
    hide Inv, Session.Started, Session.Stored, Consistent, Launched, SameRows, StartScan, Busy;
    InvStored(s);
    if Commands.ScanRoot(s.t, root, authorized).Ok? {
      Session.ScanMeans(s.t, root, authorized);
      NotThere(s, s.t.drawn);
      Launches(s, Step(s, ScansRoot(root, authorized)), ScansRoot(root, authorized), root, s.t.drawn);
    }
  }

  lemma NotThere(s: State, job: Id)
    requires Inv(s) && job >= s.t.drawn
    ensures job !in s.t.jobs
  {
    assert Drawn(s.t);
  }

  /** Edits. */

  // What an accepted command promises of the tables.
  ghost predicate Promised(a: Action, t: Tables, r: Tables) {
    match a
    case Edits(asset, expected, patch) =>
      && asset in t.assets && t.assets[asset].revision == expected && r.assets.Keys == t.assets.Keys
      && Session.Revised(t.assets[asset], patch, r.assets[asset]) && (forall k <- r.assets | k != asset :: r.assets[k] == t.assets[k])
      && r == t.(assets := r.assets, revision := t.revision + 1)
    case CreatesCollection(name) => Session.Created(t, r, t.drawn, name)
    case RenamesCollection(c, expected, name) =>
      && c in t.collections && t.collections[c].revision == expected
      && r == t.(collections := t.collections[c := Collection(name, expected + 1)], revision := t.revision + 1)
    case DeletesCollection(c) => c in t.collections && Session.Deleted(t, r, c)
    case SetsMembership(c, assets, member) => Session.Listing(assets) && Session.Joined(t, r, c, assets, member)
    case _ => false
  }

  // Why an edit is refused.
  ghost predicate Refused(a: Action, t: Tables) {
    match a
    case Edits(asset, expected, _) => asset !in t.assets || t.assets[asset].revision != expected
    case CreatesCollection(name) => NameTaken(t.collections, name, None) || |t.collections| >= 512
    case RenamesCollection(c, expected, name) =>
      c !in t.collections || t.collections[c].revision != expected || NameTaken(t.collections, name, Some(c))
    case DeletesCollection(c) => c !in t.collections
    case SetsMembership(c, assets, _) => !Session.Listing(assets) || c !in t.collections || exists a <- assets :: a !in t.assets
    case _ => true
  }

  // The answer of the command behind an edit.
  function Answer(a: Action, t: Tables): Result<Tables, Refusal>
    requires a.Edits? || a.CreatesCollection? || a.RenamesCollection? || a.DeletesCollection? || a.SetsMembership?
  {
    match a
    case Edits(asset, expected, patch) => UpdateAsset(t, asset, expected, patch)
    case CreatesCollection(name) => CreateCollection(t, name)
    case RenamesCollection(c, expected, name) => RenameCollection(t, c, expected, name)
    case DeletesCollection(c) => DeleteCollection(t, c)
    case SetsMembership(c, assets, member) => SetMembership(t, c, assets, member)
  }

  lemma Keeps(a: Action, t: Tables)
    requires Session.Stored(t) && WithinLimits(t)
    requires a.Edits? || a.RenamesCollection? || a.CreatesCollection? || a.DeletesCollection? || a.SetsMembership?
    ensures Refused(a, t) <==> Answer(a, t).Err?
    ensures Answer(a, t).Ok? ==> Promised(a, t, Answer(a, t).value)
  {
    hide Session.Created, Session.Deleted, Session.Listing, Session.Joined, Session.Stored, WithinLimits, NameTaken, SameRows;
    hide SetMembership, CreateCollection, DeleteCollection;
    match a
    case Edits(asset, expected, patch) =>
    case CreatesCollection(name) => CreateKeeps(t, name);
    case RenamesCollection(_, _, _) =>
    case DeletesCollection(c) => DeleteKeeps(t, c);
    case SetsMembership(c, assets, member) => MembershipRuns(t, c, assets, member);
  }

  lemma CreateKeeps(t: Tables, name: string)
    requires Session.Stored(t)
    ensures CreateCollection(t, name).Err? <==> NameTaken(t.collections, name, None) || |t.collections| >= 512
    ensures CreateCollection(t, name).Ok? ==> Session.Created(t, CreateCollection(t, name).value, t.drawn, name)
  {
    hide NameTaken, Session.Created, Session.Stored;
    if CreateCollection(t, name).Ok? { Session.CreateMeans(t, name); }
  }

  lemma DeleteKeeps(t: Tables, c: Id)
    requires Session.Stored(t)
    ensures DeleteCollection(t, c).Err? <==> c !in t.collections
    ensures DeleteCollection(t, c).Ok? ==> Session.Deleted(t, DeleteCollection(t, c).value, c)
  {
    hide Session.Deleted, Session.Stored;
    if DeleteCollection(t, c).Ok? { Session.DeleteMeans(t, c); }
  }

  lemma Answered(s: State, a: Action)
    requires Inv(s) && (a.Edits? || a.CreatesCollection? || a.RenamesCollection? || a.DeletesCollection? || a.SetsMembership?)
    ensures Step(s, a) == OrSame(s, Answer(a, s.t)) && Session.Stored(s.t) && WithinLimits(s.t)
  {
    InvStored(s);
    hide Consistent, UpdateAsset, CreateCollection, RenameCollection, DeleteCollection, SetMembership, Session.Stored, WithinLimits;
  }

  // An edit is a transaction with exactly the effect that the session promises,
  // or changes nothing; the limit of Collections per Asset refuses none.
  lemma EditRuns(s: State, a: Action)
    requires Inv(s) && (a.Edits? || a.CreatesCollection? || a.RenamesCollection? || a.DeletesCollection? || a.SetsMembership?)
    ensures Step(s, a).scans == s.scans && Step(s, a).works == s.works
    ensures if Refused(a, s.t) then Step(s, a) == s else Promised(a, s.t, Step(s, a).t)
  {
    hide Inv, Step, Answer, Refused, Promised, Session.Stored, WithinLimits;
    Answered(s, a);
    Keeps(a, s.t);
  }

  lemma MembershipRuns(t: Tables, c: Id, assets: seq<Id>, member: bool)
    requires Session.Stored(t) && WithinLimits(t)
    ensures var r := Commands.SetMembership(t, c, assets, member);
      if !Session.Listing(assets) || c !in t.collections || exists a <- assets :: a !in t.assets then r.Err?
      else r.Ok? && Session.Joined(t, r.value, c, assets, member)
  {
    hide Session.Listing, Session.Joined, Affected, CollectionsOf;
    Session.RefusedMeans(t, c, assets, member);
    AssetLimitNeverReached(t, c, assets, member);
    if Commands.SetMembership(t, c, assets, member).Ok? { Session.JoinedMeans(t, c, assets, member); }
  }

  /** Renditions. */

  // How far a rendition is, and what its row says.
  ghost predicate At(s: State, d: Id, root: Id, phase: Phase, state: JobState) {
    && d in s.works && s.works[d] == phase
    && d in s.t.jobs && s.t.jobs[d] == Job(RenditionGeneration, root, state, 0, 0)
  }

  lemma Asks(s: State, root: Id, age: Id -> int)
    requires Inv(s) && root in s.t.roots
    ensures At(Step(s, RequestsRendition(root, age)), s.t.drawn, root, Admitted, Queued)
    ensures Step(s, RequestsRendition(root, age)).scans == s.scans
  {
    hide Inv, Consistent, Finished;
  }

  lemma Enqueues(s: State, d: Id, root: Id)
    requires Inv(s) && At(s, d, root, Admitted, Queued)
    ensures At(Step(s, EnqueuesRendition(d)), d, root, Enqueued, Queued) && Step(s, EnqueuesRendition(d)).scans == s.scans
  {
    hide Inv, Consistent;
  }

  lemma Starts(s: State, d: Id, root: Id, age: Id -> int)
    requires Inv(s) && At(s, d, root, Enqueued, Queued)
    ensures At(Step(s, StartsRendition(d, age)), d, root, Started, Running) && Step(s, StartsRendition(d, age)).scans == s.scans
  {
    hide Inv, Consistent;
  }

  lemma Ends(s: State, d: Id, root: Id, outcome: JobState, age: Id -> int)
    requires Inv(s) && At(s, d, root, Started, Running) && outcome.Terminal()
    ensures var r := Step(s, EndsRendition(d, outcome, age));
      && d !in r.works && r.scans == s.scans
      && (d in r.t.jobs ==> r.t.jobs[d] == Job(RenditionGeneration, root, outcome, 0, 0))
  {
    hide Inv, Consistent, Finished;
  }

  // Asked for, admitted, taken and ended: the row goes from queued to running to
  // the outcome, unless the last pruning removes it, and nobody has it any more.
  lemma RenditionRuns(s: State, root: Id, outcome: JobState, x: Id -> int, y: Id -> int, z: Id -> int)
    requires Inv(s) && root in s.t.roots && outcome.Terminal()
    ensures var d := s.t.drawn;
      var r := Run(s, [RequestsRendition(root, x), EnqueuesRendition(d), StartsRendition(d, y), EndsRendition(d, outcome, z)]);
      && d !in s.t.jobs && d !in r.works && r.scans == s.scans
      && (d in r.t.jobs ==> r.t.jobs[d] == Job(RenditionGeneration, root, outcome, 0, 0))
  {
    hide Inv, Step, At, Run;
    var d := s.t.drawn;
    var asks, enqueues, starts, ends := RequestsRendition(root, x), EnqueuesRendition(d), StartsRendition(d, y), EndsRendition(d, outcome, z);
    NotThere(s, d);
    FourSteps(s, asks, enqueues, starts, ends);
    Asks(s, root, x);
    var asked := Step(s, asks);
    Enqueues(asked, d, root);
    var queued := Step(asked, enqueues);
    Starts(queued, d, root, y);
    Ends(Step(queued, starts), d, root, outcome, z);
  }

  lemma FourSteps(s: State, a: Action, b: Action, c: Action, d: Action)
    requires Inv(s)
    ensures Inv(Step(s, a)) && Inv(Step(Step(s, a), b)) && Inv(Step(Step(Step(s, a), b), c))
    ensures Run(s, [a, b, c, d]) == Step(Step(Step(Step(s, a), b), c), d)
  {
    hide Inv, Step;
    assert [a, b, c, d][..3] == [a, b, c] && [a, b, c][..2] == [a, b] && [a, b][..1] == [a] && [a][..0] == [];
    RunOne(s, [], a);
    RunOne(s, [a], b);
    RunOne(s, [a, b], c);
    RunOne(s, [a, b, c], d);
    hide Run;
    assert [] + [a] == [a] && [a] + [b] == [a, b] && [a, b] + [c] == [a, b, c] && [a, b, c] + [d] == [a, b, c, d];
    RunNone(s);
  }

  lemma RunNone(s: State)
    requires Inv(s)
    ensures Run(s, []) == s
  {
  }

  lemma RunOne(s: State, front: seq<Action>, a: Action)
    requires Inv(s)
    ensures Inv(Run(s, front)) && Run(s, front + [a]) == Step(Run(s, front), a) && Inv(Run(s, front + [a]))
  {
    hide Inv, Step;
    assert (front + [a])[..|front|] == front;
  }
}
