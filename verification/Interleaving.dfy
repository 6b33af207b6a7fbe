/**
 What scans guarantee when anything else is interleaved with their transactions.
 */
module Interleaving {
  import opened Wrappers
  import opened Tables
  import opened Reconcile
  import opened ScanOutcome
  import opened Commands
  import opened Projection
  import opened History

  /** Nothing but a finished traversal declares a Location missing. */

  predicate Scanning(a: Action) { a.Flushes? || a.MarksUnseen? || a.Fails? }

  // Every other step leaves Locations, Sources and revisions as they are.
  lemma PlainStep(s: State, a: Action)
    requires Inv(s) && !Scanning(a)
    ensures SameRows(s.t, Step(s, a).t)
  {
    hide Inv, Consistent, AddRoot, BindRoot, ScanRoot, UpdateAsset, CreateCollection, RenameCollection, DeleteCollection,
         SetMembership, Pruned;
  }

  lemma FailMisses(t: Tables, root: Id, job: Id, fault: Fault, l: Id)
    requires l in FailedScan(t, root, job, fault).locations && FailedScan(t, root, job, fault).locations[l].state == Missing
    ensures l in t.locations && t.locations[l] == FailedScan(t, root, job, fault).locations[l]
  {
  }

  lemma OnlyTraversalMisses(s: State, a: Action, l: Id)
    requires Inv(s) && !a.MarksUnseen?
    requires l in Step(s, a).t.locations && Step(s, a).t.locations[l].state == Missing
    ensures l in s.t.locations && s.t.locations[l] == Step(s, a).t.locations[l]
  {
    hide Inv, Consistent, FailedScan, All;
    if !Scanning(a) {
      PlainStep(s, a);
    } else if a.Fails? {
      if a.failed in s.scans { FailMisses(s.t, s.scans[a.failed], a.failed, a.fault, l); }
    } else if a.flush in s.scans {
      LiveRoot(s, a.flush);
      AllNeverMisses(s.t, s.scans[a.flush], a.cs, a.gone, l);
    }
  }

  lemma LiveRoot(s: State, job: Id)
    requires Inv(s) && job in s.scans
    ensures Consistent(s.t) && s.scans[job] in s.t.roots && job in s.t.jobs
  {
  }

  lemma {:induction false} RunMisses(s: State, actions: seq<Action>, l: Id)
    requires Inv(s) && forall a <- actions :: !a.MarksUnseen?
    requires l in Run(s, actions).t.locations && Run(s, actions).t.locations[l].state == Missing
    ensures l in s.t.locations && s.t.locations[l] == Run(s, actions).t.locations[l]
    decreases |actions|
  {
    hide Inv, Step;
    if actions != [] {
      OnlyTraversalMisses(Run(s, actions[..|actions| - 1]), actions[|actions| - 1], l);
      RunMisses(s, actions[..|actions| - 1], l);
    }
  }

  /** Rows of one Root under everything else that happens. */

  // The step is not a transaction of a scan of this Root.
  predicate Elsewhere(s: State, a: Action, root: Id) {
    match a
    case Flushes(job, _, _, _, _) => job in s.scans ==> s.scans[job] != root
    case MarksUnseen(job, _, _, _) => job in s.scans ==> s.scans[job] != root
    case Fails(job, _) => job in s.scans ==> s.scans[job] != root
    case _ => true
  }

  // Every Location of the Root is untouched and none is added.
  ghost predicate RootUntouched(t: Tables, r: Tables, root: Id)
    requires Linked(t) && Linked(r)
  {
    && (forall l | l in r.locations && r.locations[l].root == root :: Undisturbed(t, r, l))
    && (forall l | l in t.locations && t.locations[l].root == root :: l in r.locations && r.locations[l].root == root)
  }

  lemma CoreUntouched(t: Tables, r: Tables, root: Id)
    requires Linked(t) && Linked(r) && r.locations == t.locations && r.sources == t.sources && r.revisions == t.revisions
    ensures RootUntouched(t, r, root)
  {
  }

  lemma FlushUntouched(t: Tables, other: Id, cs: seq<Candidate>, gone: Path -> bool, jobs: map<Id, Job>, revision: nat, root: Id)
    requires Consistent(t) && other in t.roots && other != root
    requires Consistent(All(t, other, cs, gone).(jobs := jobs, revision := revision))
    ensures RootUntouched(t, All(t, other, cs, gone).(jobs := jobs, revision := revision), root)
  {
    hide All;
    var m := All(t, other, cs, gone);
    forall l | l in m.locations && m.locations[l].root == root ensures Undisturbed(t, m, l) {
      AllTouch(t, other, cs, gone, l);
    }
  }

  lemma MarkUntouched(t: Tables, other: Id, seen: set<Path>, notes: map<Path, LocationState>, sealed: set<Path>, root: Id)
    requires Consistent(t) && other != root && Consistent(MarkUnseen(t, other, seen, notes, sealed))
    ensures RootUntouched(t, MarkUnseen(t, other, seen, notes, sealed), root)
  {
    hide Drawn, Exclusive, Inhabited, UnseenState;
    var r := MarkUnseen(t, other, seen, notes, sealed);
    forall l | l in r.locations && r.locations[l].root == root ensures Undisturbed(t, r, l) {
      MarkUnseenRows(t, other, seen, notes, sealed, l);
    }
  }

  lemma FailUntouched(t: Tables, other: Id, job: Id, fault: Fault, root: Id)
    requires Consistent(t) && other != root && Consistent(Bump(FailedScan(t, other, job, fault)))
    ensures RootUntouched(t, Bump(FailedScan(t, other, job, fault)), root)
  {
  }

  lemma StepUntouched(s: State, a: Action, root: Id)
    requires Inv(s) && Elsewhere(s, a, root)
    requires Consistent(s.t) && Consistent(Step(s, a).t)
    ensures RootUntouched(s.t, Step(s, a).t, root)
  {
    var t, r := s.t, Step(s, a).t;
    if !Scanning(a) {
      PlainStep(s, a);
      CoreUntouched(t, r, root);
    } else {
      hide Inv, RootUntouched, Drawn, Placed, Owned, Attributed, Filed, Exclusive, Inhabited, All, MarkUnseen, FailedScan;
      if r == t {
        CoreUntouched(t, r, root);
      } else {
        match a
        case Flushes(job, cs, gone, _, _) =>
          LiveRoot(s, job);
          FlushUntouched(t, s.scans[job], cs, gone, r.jobs, r.revision, root);
        case MarksUnseen(job, seen, notes, sealed) => MarkUntouched(t, s.scans[job], seen, notes, sealed, root);
        case Fails(job, fault) => FailUntouched(t, s.scans[job], job, fault, root);
      }
    }
  }

  lemma MatchedUntouched(t: Tables, r: Tables, root: Id, c: Candidate)
    requires Linked(t) && Linked(r) && RootUntouched(t, r, root) && Matched(t, root, c)
    ensures Matched(r, root, c)
  {
    var l :| MatchedAt(t, l, root, c);
    assert MatchedAt(r, l, root, c);
  }

  lemma SettledUntouched(t: Tables, r: Tables, root: Id, cs: seq<Candidate>, notes: map<Path, LocationState>, sealed: set<Path>)
    requires Linked(t) && Linked(r) && RootUntouched(t, r, root) && Settled(t, root, cs, notes, sealed)
    ensures Settled(r, root, cs, notes, sealed)
  {
    forall c <- cs ensures Matched(r, root, c) {
      MatchedUntouched(t, r, root, c);
    }
    forall l | Unseen(r, l, root, PathsOf(cs))
      ensures r.locations[l].state == UnseenState(r.locations[l].path, notes, sealed)
      ensures r.sources[r.locations[l].source].lineage == if r.locations[l].state == Missing then Lost else Active
    {
      assert Undisturbed(t, r, l);
      assert Unseen(t, l, root, PathsOf(cs));
    }
  }

  lemma SettledStep(s: State, a: Action, root: Id, cs: seq<Candidate>, notes: map<Path, LocationState>, sealed: set<Path>)
    requires Inv(s) && Consistent(s.t) && Settled(s.t, root, cs, notes, sealed) && Elsewhere(s, a, root)
    ensures Consistent(Step(s, a).t) && Settled(Step(s, a).t, root, cs, notes, sealed)
  {
    StepKeeps(s, a);
    InvConsistent(Step(s, a));
    hide Inv, Step, Drawn, Placed, Owned, Attributed, Filed, Exclusive, Inhabited, Settled, Elsewhere, RootUntouched;
    StepUntouched(s, a, root);
    SettledUntouched(s.t, Step(s, a).t, root, cs, notes, sealed);
  }

  // No step of the run is a transaction of a scan of this Root.
  ghost predicate StaysElsewhere(s: State, actions: seq<Action>, root: Id)
    requires Inv(s)
    decreases |actions|
  {
    actions == [] ||
      (&& StaysElsewhere(s, actions[..|actions| - 1], root)
       && Elsewhere(Run(s, actions[..|actions| - 1]), actions[|actions| - 1], root))
  }

  // A finished scan's picture of its Root stands until the Root is scanned again.
  lemma {:induction false} SettledStands(s: State, actions: seq<Action>, root: Id, cs: seq<Candidate>,
                                         notes: map<Path, LocationState>, sealed: set<Path>)
    requires Inv(s) && Consistent(s.t) && Settled(s.t, root, cs, notes, sealed) && StaysElsewhere(s, actions, root)
    ensures Consistent(Run(s, actions).t) && Settled(Run(s, actions).t, root, cs, notes, sealed)
    decreases |actions|
  {
    if actions != [] {
      hide Inv, Step, Consistent, Settled, Elsewhere;
      SettledStands(s, actions[..|actions| - 1], root, cs, notes, sealed);
      SettledStep(Run(s, actions[..|actions| - 1]), actions[|actions| - 1], root, cs, notes, sealed);
    }
  }

  lemma InvConsistent(s: State)
    requires Inv(s)
    ensures Consistent(s.t)
  {
  }

  // Scanning an unchanged Root once more changes no canonical record, whatever
  // was edited and whichever other Roots were scanned in between.
  lemma RescanMeans(t: Tables, root: Id, job: Id, cs: seq<Candidate>, notes: map<Path, LocationState>, sealed: set<Path>,
                    gone: Path -> bool, observed: nat, unsupported: nat, revision: nat)
    requires Consistent(t) && root in t.roots && Settled(t, root, cs, notes, sealed)
    ensures SameMeaning(t, Concluded(Scanned(t, root, cs, notes, sealed, gone), root, Ready, job, JobState.Completed,
                                     observed, unsupported).(revision := revision))
  {
    RescanIdle(t, root, cs, notes, sealed, gone);
    var r := Concluded(t.(revision := t.revision + 1), root, Ready, job, JobState.Completed, observed, unsupported).(revision := revision);
    hide Consistent, Settled, Scanned;
    assert r.roots.Keys == t.roots.Keys;
    RootsMean(t.roots, r.roots);
  }

  /** A scan whose transactions are interleaved with anything else. */

  // The candidates that the job's batches merge in a run, in order.
  function FlushedBy(actions: seq<Action>, job: Id): seq<Candidate> {
    if actions == [] then [] else
      var a := actions[|actions| - 1];
      FlushedBy(actions[..|actions| - 1], job) + Merges(a, job)
  }

  // The tree still holds every candidate whenever the job asks.
  ghost predicate Holds(actions: seq<Action>, job: Id, cs: seq<Candidate>) {
    forall a <- actions :: a.Flushes? && a.flush == job ==> forall c <- cs :: !a.gone(c.path)
  }

  // Only a command that starts a scan starts a thread, for a job of its own.
  lemma ScanLive(s: State, a: Action, job: Id)
    requires Inv(s) && OfScan(a) && job in ScanStep(s, a).scans
    ensures job in s.scans && s.scans[job] == ScanStep(s, a).scans[job]
  {
    hide Inv, Consistent, All, MarkUnseen, Concluded, FailedScan, Progressed;
  }

  lemma RootLive(s: State, a: Action, job: Id)
    requires OfRoot(a) && job < s.t.drawn && job in RootStep(s, a).scans
    ensures job in s.scans && s.scans[job] == RootStep(s, a).scans[job]
  {
    hide AddRoot, BindRoot, ScanRoot;
  }

  lemma OtherLive(s: State, a: Action)
    ensures Rendering(a) ==> RenditionStep(s, a).scans == s.scans
    ensures EditStep(s, a).scans == s.scans
  {
    hide Pruned, UpdateAsset, CreateCollection, RenameCollection, DeleteCollection, SetMembership;
  }

  lemma JobDrawn(s: State, job: Id)
    requires Inv(s) && job in s.t.jobs
    ensures job < s.t.drawn
  {
    hide Linked, Exclusive, Inhabited, WithinLimits, Scheduled, Manned;
  }

  // A live thread's job was live before, unless it has just been started.
  lemma WasLive(s: State, a: Action, job: Id)
    requires Inv(s) && job in s.t.jobs && job in Step(s, a).scans
    ensures job in s.scans && s.scans[job] == Step(s, a).scans[job]
  {
    hide Inv, ScanStep, RootStep, RenditionStep, EditStep, Recovery;
    JobDrawn(s, job);
    OtherLive(s, a);
    if OfScan(a) { ScanLive(s, a, job); }
    if OfRoot(a) { RootLive(s, a, job); }
  }

  // Another live thread works on another Root.
  lemma OneThread(s: State, a: Action, job: Id)
    requires Inv(s) && job in s.scans && Scanning(a)
    requires !(a.Flushes? && a.flush == job) && !(a.MarksUnseen? && a.mark == job) && !(a.Fails? && a.failed == job)
    ensures Elsewhere(s, a, s.scans[job])
  {
    hide Consistent, WithinLimits;
  }

  // The row of a live scan's job is never removed.
  lemma RowStays(s: State, actions: seq<Action>, job: Id)
    requires Inv(s) && job in s.scans
    ensures job in Run(s, actions).t.jobs
  {
    assert s.t.jobs[job].kind == InitialScan;
    hide Inv, Step, Consistent, WithinLimits, KeepsIdentity, SameMeaning;
    RunAdvances(s, actions);
  }

  lemma {:induction false} AllKeepsMatched(t: Tables, root: Id, c: Candidate, cs: seq<Candidate>, gone: Path -> bool)
    requires Consistent(t) && root in t.roots && Matched(t, root, c)
    requires !gone(c.path) && forall d <- cs :: d.path != c.path
    ensures Matched(All(t, root, cs, gone), root, c)
    decreases |cs|
  {
    if cs != [] {
      AllKeepsMatched(t, root, c, cs[..|cs| - 1], gone);
      hide Matched, KeepsRevisions, KeepsLocations, KeepsOrigins, Drawn, Placed, Owned, Attributed, Filed, Exclusive, Inhabited;
      var before := All(t, root, cs[..|cs| - 1], gone);
      OneKeeps(before, root, cs[|cs| - 1], gone);
      OneKeepsMatched(before, root, c, cs[|cs| - 1], gone);
    }
  }

  lemma FlushCollects(t: Tables, root: Id, cs: seq<Candidate>, batch: seq<Candidate>, gone: Path -> bool, jobs: map<Id, Job>, revision: nat)
    requires Consistent(t) && root in t.roots && forall c <- cs :: Matched(t, root, c)
    requires DistinctPaths(cs + batch) && forall c <- cs + batch :: !gone(c.path)
    requires Consistent(All(t, root, batch, gone).(jobs := jobs, revision := revision))
    ensures forall c <- cs + batch :: Matched(All(t, root, batch, gone).(jobs := jobs, revision := revision), root, c)
  {
    hide All, Matched, Drawn, Placed, Owned, Attributed, Filed, Exclusive, Inhabited, KeepsIdentity;
    assert forall c <- batch :: c in cs + batch;
    BatchDistinct(cs, batch);
    AllMatch(t, root, batch, gone);
    var merged := All(t, root, batch, gone);
    forall c <- cs + batch ensures Matched(merged.(jobs := jobs, revision := revision), root, c) {
      if c in cs && c !in batch {
        AllKeepsMatched(t, root, c, batch, gone);
      }
      MatchedFrame(merged, root, c, jobs, revision);
    }
  }

  lemma BatchDistinct(cs: seq<Candidate>, batch: seq<Candidate>)
    requires DistinctPaths(cs + batch)
    ensures DistinctPaths(batch)
    ensures forall c <- cs, d <- batch :: c.path != d.path
  {
    var all := cs + batch;
    forall i, j | 0 <= i < j < |batch| ensures batch[i].path != batch[j].path {
      assert all[|cs| + i] == batch[i] && all[|cs| + j] == batch[j];
    }
    forall c <- cs, d <- batch ensures c.path != d.path {
      var i :| 0 <= i < |cs| && cs[i] == c;
      var j :| 0 <= j < |batch| && batch[j] == d;
      assert all[i] == c && all[|cs| + j] == d;
    }
  }

  lemma MatchedFrame(t: Tables, root: Id, c: Candidate, jobs: map<Id, Job>, revision: nat)
    requires Linked(t) && Linked(t.(jobs := jobs, revision := revision)) && Matched(t, root, c)
    ensures Matched(t.(jobs := jobs, revision := revision), root, c)
  {
    var l :| MatchedAt(t, l, root, c);
    assert MatchedAt(t.(jobs := jobs, revision := revision), l, root, c);
  }

  lemma StaysLive(s: State, a: Action, job: Id)
    requires Inv(s) && job in Step(s, a).scans
    ensures !(a.Fails? && a.failed == job)
  {
    hide Inv, Consistent;
  }

  lemma CollectedStep(s: State, a: Action, job: Id, cs: seq<Candidate>)
    requires Inv(s) && job in s.scans && job in Step(s, a).scans && Consistent(s.t) && Consistent(Step(s, a).t)
    requires !(a.MarksUnseen? && a.mark == job)
    requires forall c <- cs :: Matched(s.t, s.scans[job], c)
    requires a.Flushes? && a.flush == job ==> DistinctPaths(cs + a.cs) && forall c <- cs + a.cs :: !a.gone(c.path)
    ensures forall c <- cs + Merges(a, job) :: Matched(Step(s, a).t, s.scans[job], c)
  {
    hide Inv, All, Matched, Drawn, Placed, Owned, Attributed, Filed, Exclusive, Inhabited, KeepsIdentity;
    if a.Flushes? && a.flush == job {
      LiveRoot(s, job);
      FlushCollects(s.t, s.scans[job], cs, a.cs, a.gone, Step(s, a).t.jobs, Step(s, a).t.revision);
    } else {
      hide Step;
      StaysLive(s, a, job);
      if Scanning(a) {
        OneThread(s, a, job);
      }
      StepUntouched(s, a, s.scans[job]);
      forall c <- cs + Merges(a, job) ensures Matched(Step(s, a).t, s.scans[job], c) {
        MatchedUntouched(s.t, Step(s, a).t, s.scans[job], c);
      }
    }
  }

  // Everything the job's batches merged is still matched at the end.
  lemma {:induction false} CollectedStands(s: State, actions: seq<Action>, job: Id)
    requires Inv(s) && job in s.scans && job in Run(s, actions).scans
    requires forall a <- actions :: !(a.MarksUnseen? && a.mark == job)
    requires DistinctPaths(FlushedBy(actions, job)) && Holds(actions, job, FlushedBy(actions, job))
    ensures s.scans[job] == Run(s, actions).scans[job] && Consistent(Run(s, actions).t)
    ensures forall c <- FlushedBy(actions, job) :: Matched(Run(s, actions).t, s.scans[job], c)
    decreases |actions|
  {
    hide Inv, Step, Drawn, Placed, Owned, Attributed, Filed, Exclusive, Inhabited, Matched;
    InvConsistent(Run(s, actions));
    if actions != [] {
      var front, last := actions[..|actions| - 1], actions[|actions| - 1];
      var before := Run(s, front);
      RowStays(s, front, job);
      WasLive(before, last, job);
      FlushedFront(actions, job);
      CollectedStands(s, front, job);
      InvConsistent(before);
      assert last in actions;
      CollectedStep(before, last, job, FlushedBy(front, job));
    }
  }

  function Merges(a: Action, job: Id): seq<Candidate> {
    if a.Flushes? && a.flush == job then a.cs else []
  }

  lemma FlushedFront(actions: seq<Action>, job: Id)
    requires actions != []
    requires DistinctPaths(FlushedBy(actions, job)) && Holds(actions, job, FlushedBy(actions, job))
    ensures var front, last := actions[..|actions| - 1], actions[|actions| - 1];
      && DistinctPaths(FlushedBy(front, job)) && Holds(front, job, FlushedBy(front, job))
      && FlushedBy(actions, job) == FlushedBy(front, job) + Merges(last, job)
  {
    var front, all := actions[..|actions| - 1], FlushedBy(actions, job);
    forall i, j | 0 <= i < j < |FlushedBy(front, job)| ensures FlushedBy(front, job)[i].path != FlushedBy(front, job)[j].path {
      assert all[i] == FlushedBy(front, job)[i] && all[j] == FlushedBy(front, job)[j];
    }
    assert forall a <- front :: a in actions;
    assert forall c <- FlushedBy(front, job) :: c in all;
  }

  // The main theorem about a scan among other activity: if its batches carried
  // the candidates `cs` of a tree that still holds them, then marking the
  // unseen rows settles the Root, whatever else ran in between.
  lemma InterleavedScanSettles(s: State, actions: seq<Action>, job: Id, notes: map<Path, LocationState>, sealed: set<Path>)
    requires Inv(s) && job in s.scans && job in Run(s, actions).scans
    requires forall a <- actions :: !(a.MarksUnseen? && a.mark == job)
    requires DistinctPaths(FlushedBy(actions, job)) && Holds(actions, job, FlushedBy(actions, job))
    ensures var cs := FlushedBy(actions, job);
      var r := Step(Run(s, actions), MarksUnseen(job, PathsOf(cs), notes, sealed));
      Consistent(r.t) && Settled(r.t, s.scans[job], cs, notes, sealed)
  {
    hide Inv, Drawn, Placed, Owned, Attributed, Filed, Exclusive, Inhabited, Matched, MarkUnseen;
    var cs, before := FlushedBy(actions, job), Run(s, actions);
    CollectedStands(s, actions, job);
    MarkSettles(before.t, s.scans[job], cs, notes, sealed);
  }

  lemma MarkSettles(t: Tables, root: Id, cs: seq<Candidate>, notes: map<Path, LocationState>, sealed: set<Path>)
    requires Consistent(t) && forall c <- cs :: Matched(t, root, c)
    ensures Consistent(MarkUnseen(t, root, PathsOf(cs), notes, sealed))
    ensures Settled(MarkUnseen(t, root, PathsOf(cs), notes, sealed), root, cs, notes, sealed)
  {
    hide Drawn, Attributed, Filed, Exclusive, Inhabited, KeepsIdentity, MarkUnseen;
    var r := MarkUnseen(t, root, PathsOf(cs), notes, sealed);
    MarkUnseenKeeps(t, root, PathsOf(cs), notes, sealed);
    forall c <- cs ensures Matched(r, root, c) {
      var l :| MatchedAt(t, l, root, c);
      MarkUnseenRows(t, root, PathsOf(cs), notes, sealed, l);
      assert MatchedAt(r, l, root, c);
    }
    forall l | Unseen(r, l, root, PathsOf(cs))
      ensures r.locations[l].state == UnseenState(r.locations[l].path, notes, sealed)
      ensures r.sources[r.locations[l].source].lineage == if r.locations[l].state == Missing then Lost else Active
    {
      MarkKeys(t, root, PathsOf(cs), notes, sealed);
      MarkUnseenRows(t, root, PathsOf(cs), notes, sealed, l);
    }
  }

  lemma MarkKeys(t: Tables, root: Id, seen: set<Path>, notes: map<Path, LocationState>, sealed: set<Path>)
    ensures MarkUnseen(t, root, seen, notes, sealed).locations.Keys == t.locations.Keys
    ensures SameShape(t.locations, MarkUnseen(t, root, seen, notes, sealed).locations)
  {
  }
}
