/**
 A run of the scanner is a run of the Library: its batches, the marking of the
 unseen rows and its end are the transactions that any run may interleave.
 */
module ScanHistory {
  import opened Wrappers
  import opened Tables
  import opened ScanOutcome
  import opened ScanRun
  import opened History
  import opened Interleaving

  // The transactions of the batches, with the counts they store.
  function BatchActions(job: Id, batches: seq<seq<Candidate>>, gone: Path -> bool): (actions: seq<Action>)
    ensures |actions| == |batches|
  {
    if batches == [] then [] else
      BatchActions(job, batches[..|batches| - 1], gone)
      + [Flushes(job, batches[|batches| - 1], gone, |Flat(batches)|, UnsupportedIn(Flat(batches)))]
  }

  lemma LastBatch(job: Id, batches: seq<seq<Candidate>>, gone: Path -> bool)
    requires batches != []
    ensures var actions, n := BatchActions(job, batches, gone), |batches| - 1;
      && actions[..n] == BatchActions(job, batches[..n], gone)
      && actions[n] == Flushes(job, batches[n], gone, |Flat(batches)|, UnsupportedIn(Flat(batches)))
  {
  }

  // A scan that has just started: its thread is live and its row counts nothing.
  ghost predicate Fresh(s: State, job: Id) {
    && Inv(s) && job in s.scans
    && Consistent(s.t) && s.scans[job] in s.t.roots
    && job in s.t.jobs && s.t.jobs[job].observed == 0 && s.t.jobs[job].unsupported == 0
  }

  lemma NothingYet(t: Tables, root: Id, job: Id, gone: Path -> bool)
    requires Consistent(t) && root in t.roots && job in t.jobs && t.jobs[job].observed == 0 && t.jobs[job].unsupported == 0
    ensures Midway(t, root, job, [], gone, t.revision) == t
  {
  }

  // One more batch.
  lemma FlushStep(s: State, start: Tables, root: Id, job: Id, done: seq<Candidate>, batch: seq<Candidate>, gone: Path -> bool)
    requires Inv(s) && job in s.scans && s.scans[job] == root && Consistent(s.t) && Consistent(start) && root in start.roots
    requires root in s.t.roots && s.t == Midway(start, root, job, done, gone, s.t.revision)
    ensures History.Step(s, Flushes(job, batch, gone, |done + batch|, UnsupportedIn(done + batch)))
         == s.(t := Midway(start, root, job, done + batch, gone, s.t.revision + 1))
  {
    hide Inv, Consistent, KeepsIdentity, KeepsCuration, All, Midway, UnsupportedIn;
    var merged := All(s.t, root, batch, gone);
    AllKeepsRevision(s.t, root, batch, gone);
    MidwayProgress(start, root, job, done, batch, gone, merged, s.t.revision + 1);
  }

  lemma AllKeepsRevision(t: Tables, root: Id, cs: seq<Candidate>, gone: Path -> bool)
    requires Consistent(t) && root in t.roots
    ensures All(t, root, cs, gone).revision == t.revision
  {
    AllKeepsCuration(t, root, cs, gone);
  }

  // The batches of a scan, run as transactions, leave what the scanner leaves.
  lemma {:induction false} BatchesRun(s: State, job: Id, batches: seq<seq<Candidate>>, gone: Path -> bool)
    requires Fresh(s, job)
    ensures Run(s, BatchActions(job, batches, gone))
         == s.(t := Midway(s.t, s.scans[job], job, Flat(batches), gone, s.t.revision + |batches|))
    decreases |batches|
  {
    hide Inv, Consistent, Midway, History.Step;
    if batches == [] {
      NothingYet(s.t, s.scans[job], job, gone);
    } else {
      var n := |batches| - 1;
      BatchesRun(s, job, batches[..n], gone);
      LastBatch(job, batches, gone);
      var before := Run(s, BatchActions(job, batches[..n], gone));
      assert Consistent(before.t) by { InvConsistent(before); }
      MidwayRevision(s.t, s.scans[job], job, Flat(batches[..n]), gone, s.t.revision + n);
      FlushStep(before, s.t, s.scans[job], job, Flat(batches[..n]), batches[n], gone);
    }
  }

  lemma MidwayRevision(start: Tables, root: Id, job: Id, cs: seq<Candidate>, gone: Path -> bool, revision: nat)
    requires Consistent(start) && root in start.roots
    ensures Midway(start, root, job, cs, gone, revision).revision == revision
    ensures root in Midway(start, root, job, cs, gone, revision).roots
  {
    AllKeepsCuration(start, root, cs, gone);
  }

  lemma RunLast(s: State, actions: seq<Action>, a: Action)
    requires Inv(s)
    ensures Run(s, actions + [a]) == History.Step(Run(s, actions), a)
  {
    hide Inv, History.Step;
    assert (actions + [a])[..|actions|] == actions;
  }

  // Everything a completed scan does.
  ghost function CompletedActions(job: Id, batches: seq<seq<Candidate>>, gone: Path -> bool, notes: map<Path, LocationState>,
                            sealed: set<Path>): seq<Action>
  {
    var cs := Flat(batches);
    BatchActions(job, batches, gone) + [MarksUnseen(job, PathsOf(cs), notes, sealed)]
    + [Finishes(job, JobState.Completed, |cs|, UnsupportedIn(cs))]
  }

  // The catalogue that a completed scan leaves is that of its transactions in a
  // run of the Library, to the revision.
  lemma CompletedIsRun(s: State, job: Id, batches: seq<seq<Candidate>>, gone: Path -> bool, notes: map<Path, LocationState>,
                       sealed: set<Path>)
    requires Fresh(s, job)
    ensures var root, cs := s.scans[job], Flat(batches);
      Run(s, CompletedActions(job, batches, gone, notes, sealed))
      == s.(t := Concluded(Scanned(s.t, root, cs, notes, sealed, gone), root, Ready, job, JobState.Completed, |cs|,
                           UnsupportedIn(cs)).(revision := s.t.revision + |batches| + 2),
            scans := s.scans - {job})
  {
    hide Inv, Consistent, Midway, History.Step, Concluded, MarkUnseen, Scanned, UnsupportedIn;
    var root, cs, flushes := s.scans[job], Flat(batches), BatchActions(job, batches, gone);
    var mark, finish := MarksUnseen(job, PathsOf(cs), notes, sealed), Finishes(job, JobState.Completed, |cs|, UnsupportedIn(cs));
    var revision := s.t.revision + |batches|;
    BatchesRun(s, job, batches, gone);
    RunLast(s, flushes, mark);
    RunLast(s, flushes + [mark], finish);
    MarkThenFinish(Run(s, flushes), job, mark, finish);
    MidwayCompleted(s.t, root, job, cs, gone, revision, notes, sealed, revision + 2);
    MidwayRevision(s.t, root, job, cs, gone, revision);
  }

  lemma MarkThenFinish(s: State, job: Id, mark: Action, finish: Action)
    requires Inv(s) && job in s.scans && mark.MarksUnseen? && mark.mark == job
    requires finish.Finishes? && finish.finish == job && finish.jobState == JobState.Completed
    requires Inv(History.Step(s, mark))
    ensures var marked := MarkUnseen(s.t, s.scans[job], mark.seen, mark.notes, mark.sealed);
      History.Step(History.Step(s, mark), finish)
      == s.(t := Concluded(marked, s.scans[job], Ready, job, JobState.Completed, finish.total, finish.unusable)
                   .(revision := s.t.revision + 2),
            scans := s.scans - {job})
  {
    hide Inv, MarkUnseen, Consistent, Concluded;
    var marked := MarkUnseen(s.t, s.scans[job], mark.seen, mark.notes, mark.sealed);
    MarkRevision(s.t, s.scans[job], mark.seen, mark.notes, mark.sealed);
    ConcludedRevision(marked, s.scans[job], Ready, job, JobState.Completed, finish.total, finish.unusable);
  }

  lemma MarkRevision(t: Tables, root: Id, seen: set<Path>, notes: map<Path, LocationState>, sealed: set<Path>)
    ensures MarkUnseen(t, root, seen, notes, sealed).revision == t.revision + 1
  {
  }

  lemma ConcludedRevision(t: Tables, root: Id, rootState: RootState, job: Id, jobState: JobState, observed: nat, unsupported: nat)
    ensures Concluded(t, root, rootState, job, jobState, observed, unsupported).revision == t.revision
  {
  }

  // So do those of a scan that is cancelled or fails.
  lemma CancelledIsRun(s: State, job: Id, batches: seq<seq<Candidate>>, gone: Path -> bool)
    requires Fresh(s, job)
    ensures var root, cs := s.scans[job], Flat(batches);
      Run(s, BatchActions(job, batches, gone) + [Finishes(job, JobState.Cancelled, |cs|, UnsupportedIn(cs))])
      == s.(t := Concluded(All(s.t, root, cs, gone), root, Connected, job, JobState.Cancelled, |cs|,
                           UnsupportedIn(cs)).(revision := s.t.revision + |batches| + 1),
            scans := s.scans - {job})
  {
    hide Inv, Consistent, Midway, History.Step, Concluded, All, UnsupportedIn, Run, Flat, BatchActions;
    var root, cs, flushes := s.scans[job], Flat(batches), BatchActions(job, batches, gone);
    var finish := Finishes(job, JobState.Cancelled, |cs|, UnsupportedIn(cs));
    var revision := s.t.revision + |batches|;
    BatchesRun(s, job, batches, gone);
    RunLast(s, flushes, finish);
    CancelStep(Run(s, flushes), job, finish);
    MidwayCancelled(s.t, root, job, cs, gone, revision, revision + 1);
    MidwayRevision(s.t, root, job, cs, gone, revision);
  }

  lemma CancelStep(s: State, job: Id, finish: Action)
    requires Inv(s) && job in s.scans && finish.Finishes? && finish.finish == job && finish.jobState == JobState.Cancelled
    ensures History.Step(s, finish)
         == s.(t := Concluded(s.t, s.scans[job], Connected, job, JobState.Cancelled, finish.total, finish.unusable)
                      .(revision := s.t.revision + 1),
               scans := s.scans - {job})
  {
    hide Inv, Consistent;
  }

  lemma FailedIsRun(s: State, job: Id, batches: seq<seq<Candidate>>, gone: Path -> bool, fault: Fault)
    requires Fresh(s, job)
    ensures var root, cs := s.scans[job], Flat(batches);
      Run(s, BatchActions(job, batches, gone) + [Action.Fails(job, fault)])
      == s.(t := FailedScan(Midway(s.t, root, job, cs, gone, 0), root, job, fault).(revision := s.t.revision + |batches| + 1),
            scans := s.scans - {job})
  {
    hide Inv, Consistent, Midway, History.Step, FailedScan, All, UnsupportedIn, Run, Flat, BatchActions;
    var root, cs, flushes := s.scans[job], Flat(batches), BatchActions(job, batches, gone);
    var revision := s.t.revision + |batches|;
    BatchesRun(s, job, batches, gone);
    RunLast(s, flushes, Action.Fails(job, fault));
    FailStep(Run(s, flushes), job, fault);
    ScanRun.Fails(s.t, root, job, cs, gone, revision, fault);
  }

  lemma FailStep(s: State, job: Id, fault: Fault)
    requires Inv(s) && job in s.scans
    ensures History.Step(s, Action.Fails(job, fault)) == s.(t := Bump(FailedScan(s.t, s.scans[job], job, fault)), scans := s.scans - {job})
  {
    hide Inv, Consistent;
  }

  // What its transactions merge is what it walked.
  lemma {:induction false} BatchesFlush(job: Id, batches: seq<seq<Candidate>>, gone: Path -> bool)
    ensures FlushedBy(BatchActions(job, batches, gone), job) == Flat(batches)
    decreases |batches|
  {
    if batches != [] {
      BatchesFlush(job, batches[..|batches| - 1], gone);
      LastBatch(job, batches, gone);
    }
  }
}
