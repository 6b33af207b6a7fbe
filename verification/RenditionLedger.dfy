/**
 How many finished rendition jobs the ledger holds: every run counted exactly,
 with the transactions that prune and those that do not.
 */
module RenditionLedger {
  import opened Wrappers
  import opened Sets
  import opened Tables
  import opened Commands
  import opened History

  // Rows are pruned in the order of their times and ids, in which no two are alike.
  ghost predicate Ranks(age: Id -> int) {
    forall a, b {:trigger age(a), age(b)} | age(a) == age(b) :: a == b
  }

  ghost predicate Ranked(a: Action) {
    match a
    case RequestsRendition(_, age) => Ranks(age)
    case StartsRendition(_, age) => Ranks(age)
    case EndsRendition(_, _, age) => Ranks(age)
    case _ => true
  }

  ghost predicate Prunes(s: State, a: Action) {
    || (a.RequestsRendition? && a.root in s.t.roots)
    || (a.EndsRendition? && Held(s.works, a.ended, Started) && a.outcome.Terminal())
  }

  // How many rendition jobs a transaction finishes: one that is refused or has
  // ended, all that are live when a Library is opened again.
  function Finishes(s: State, a: Action): nat {
    match a
    case RefusesRendition(job) => if Held(s.works, job, Admitted) then 1 else 0
    case EndsRendition(job, outcome, _) => if Held(s.works, job, Started) && outcome.Terminal() then 1 else 0
    case Reopens(writes) => if writes >= 1 then |Live(s.t.jobs)| else 0
    case _ => 0
  }

  ghost function FinishedIn(s: State): nat { |Finished(s.t.jobs)| }

  lemma WorkLive(s: State, job: Id)
    requires Inv(s) && job in s.works
    ensures job in Live(s.t.jobs)
  {
    hide Consistent, WithinLimits, Scheduled;
  }

  lemma FreshJob(s: State)
    requires Inv(s)
    ensures s.t.drawn !in s.t.jobs
  {
    hide Linked, Exclusive, Inhabited, WithinLimits, Scheduled, Manned;
  }

  lemma RequestCounts(jobs: map<Id, Job>, job: Id, root: Id, age: Id -> int)
    requires job !in jobs && Ranks(age)
    ensures |Finished(Pruned(jobs[job := Job(RenditionGeneration, root, Queued, 0, 0)], age))|
         == Min(MAX_FINISHED_RENDITIONS, |Finished(jobs)|)
  {
    hide Pruned;
    var more := jobs[job := Job(RenditionGeneration, root, Queued, 0, 0)];
    assert Finished(more) == Finished(jobs);
    PrunedBound(more, age);
  }

  lemma WriteCounts(jobs: map<Id, Job>, job: Id, state: JobState, age: Id -> int)
    requires job in Live(jobs) && Ranks(age)
    ensures |Finished(Pruned(WriteRendition(jobs, job, state), age))|
         == Min(MAX_FINISHED_RENDITIONS, |Finished(jobs)| + if state.Terminal() then 1 else 0)
  {
    hide Pruned, WriteRendition;
    WriteFinishes(jobs, job, state);
    PrunedBound(WriteRendition(jobs, job, state), age);
  }

  lemma RenditionCounts(s: State, a: Action)
    requires Inv(s) && Rendering(a) && Ranked(a)
    ensures FinishedIn(RenditionStep(s, a)) == if Prunes(s, a) then Min(MAX_FINISHED_RENDITIONS, FinishedIn(s) + Finishes(s, a))
                                               else FinishedIn(s) + Finishes(s, a)
  {
    hide Inv, Ranks, Pruned, Finished, Live, WriteRendition, Min;
    FreshJob(s);
    match a
    case RequestsRendition(root, age) =>
      if root in s.t.roots { RequestCounts(s.t.jobs, s.t.drawn, root, age); }
    case RefusesRendition(job) =>
      if Held(s.works, job, Admitted) {
        WorkLive(s, job);
        WriteFinishes(s.t.jobs, job, JobState.Failed);
      }
    case EnqueuesRendition(_) =>
    case StartsRendition(job, age) =>
      if Held(s.works, job, Enqueued) {
        WorkLive(s, job);
        WriteFinishes(s.t.jobs, job, Running);
      }
    case EndsRendition(job, outcome, age) =>
      if Held(s.works, job, Started) && outcome.Terminal() {
        WorkLive(s, job);
        WriteCounts(s.t.jobs, job, outcome, age);
      }
    case LosesRendition(_) =>
  }

  lemma KeptFinished(a: map<Id, Job>, b: map<Id, Job>)
    requires KeepsRenditions(a, b)
    ensures Finished(a) == Finished(b)
  {
  }

  // One transaction, counted exactly.
  lemma StepCounts(s: State, a: Action)
    requires Inv(s) && Ranked(a)
    ensures FinishedIn(Step(s, a)) == if Prunes(s, a) then Min(MAX_FINISHED_RENDITIONS, FinishedIn(s) + Finishes(s, a))
                                      else FinishedIn(s) + Finishes(s, a)
  {
    hide Inv, ScanStep, RootStep, EditStep, RenditionStep, Ranked;
    if Rendering(a) {
      hide Prunes, Finishes, Finished, Recovery;
      RenditionCounts(s, a);
    } else if a.Reopens? {
      hide FailedJobs, Finished, Live;
      RecoveryFinishes(s.t.jobs);
    } else {
      if OfScan(a) { ScanKeepsRenditions(s, a); } else { CommandKeepsRenditions(s, a); }
      hide Step, KeepsRenditions, Finished;
      KeptFinished(s.t.jobs, Step(s, a).t.jobs);
    }
  }

  // What the last pruning left, or what was there before the run.
  ghost function Left(s: State, actions: seq<Action>): nat
    requires Inv(s)
    decreases |actions|
  {
    if actions == [] then FinishedIn(s) else
      var before, a := Run(s, actions[..|actions| - 1]), actions[|actions| - 1];
      if Prunes(before, a) then FinishedIn(Step(before, a)) else Left(s, actions[..|actions| - 1])
  }

  // How many were refused, or failed by an opening, since then.
  ghost function Since(s: State, actions: seq<Action>): nat
    requires Inv(s)
    decreases |actions|
  {
    if actions == [] then 0 else
      var before, a := Run(s, actions[..|actions| - 1]), actions[|actions| - 1];
      if Prunes(before, a) then 0 else Since(s, actions[..|actions| - 1]) + Finishes(before, a)
  }

  // Over every run the ledger holds exactly what the last pruning left and what
  // was finished without one since; so 128 is exceeded exactly if that is too
  // much, and never by more than was refused or failed since.
  lemma {:induction false} RunCounts(s: State, actions: seq<Action>)
    requires Inv(s) && forall a <- actions :: Ranked(a)
    ensures FinishedIn(Run(s, actions)) == Left(s, actions) + Since(s, actions)
    ensures FinishedIn(s) <= 128 ==> Left(s, actions) <= 128
    decreases |actions|
  {
    hide Inv, Step, Prunes, Finishes, FinishedIn, Ranked;
    if actions != [] {
      RunCounts(s, actions[..|actions| - 1]);
      StepCounts(Run(s, actions[..|actions| - 1]), actions[|actions| - 1]);
    }
  }

  // From a new Library on.
  lemma LedgerBound(name: string, actions: seq<Action>)
    requires forall a <- actions :: Ranked(a)
    ensures var s := NewLibrary(name);
      && FinishedIn(Run(s, actions)) <= 128 + Since(s, actions)
      && (FinishedIn(Run(s, actions)) > 128
          <==> Since(s, actions) > 128 - Left(s, actions))
  {
    var s := NewLibrary(name);
    assert FinishedIn(s) == 0;
    hide Run, Left, Since, FinishedIn;
    RunCounts(s, actions);
  }

  /** The bound is exceeded. */

  // Requests that are refused one after the other.
  function Refusals(root: Id, age: Id -> int, first: Id, n: nat): seq<Action> {
    if n == 0 then [] else Refusals(root, age, first, n - 1) + [RequestsRendition(root, age), RefusesRendition(first + n - 1)]
  }

  lemma TwoMore(s: State, actions: seq<Action>, a: Action, b: Action)
    requires Inv(s)
    ensures Inv(Step(Run(s, actions), a)) && Run(s, actions + [a, b]) == Step(Step(Run(s, actions), a), b)
  {
    hide Inv, Step;
    StepKeeps(Run(s, actions), a);
    assert (actions + [a, b])[..|actions| + 1] == actions + [a];
    assert (actions + [a])[..|actions|] == actions;
  }

  // A request prunes; its refusal then adds one.
  lemma RefusedOnce(s: State, root: Id, age: Id -> int)
    requires Inv(s) && root in s.t.roots && Ranks(age)
    ensures var asked := Step(s, RequestsRendition(root, age));
      && Inv(asked)
      && var r := Step(asked, RefusesRendition(s.t.drawn));
         && FinishedIn(r) == Min(MAX_FINISHED_RENDITIONS, FinishedIn(s)) + 1
         && r.t.drawn == s.t.drawn + 1 && root in r.t.roots
  {
    hide Inv, Ranks, ScanStep, RootStep, EditStep, Recovery, Pruned, Finished, WriteRendition;
    var a := RequestsRendition(root, age);
    StepKeeps(s, a);
    StepCounts(s, a);
    StepCounts(Step(s, a), RefusesRendition(s.t.drawn));
  }

  // Whatever the Library has been through, from the first of these refusals on
  // the ledger grows by one, up to 129.
  lemma {:induction false} RefusalsCount(s: State, root: Id, age: Id -> int, n: nat)
    requires Inv(s) && root in s.t.roots && Ranks(age)
    ensures var r := Run(s, Refusals(root, age, s.t.drawn, n));
      && r.t.drawn == s.t.drawn + n && root in r.t.roots
      && FinishedIn(r) == if n == 0 then FinishedIn(s) else Min(MAX_FINISHED_RENDITIONS, FinishedIn(s) + n - 1) + 1
  {
    hide Inv, Step, Ranks, FinishedIn;
    if n > 0 {
      RefusalsCount(s, root, age, n - 1);
      var before := Refusals(root, age, s.t.drawn, n - 1);
      RefusedOnce(Run(s, before), root, age);
      TwoMore(s, before, RequestsRendition(root, age), RefusesRendition(s.t.drawn + n - 1));
      hide Run;
    }
  }

  lemma RefusalsExceed(s: State, root: Id, age: Id -> int)
    requires Inv(s) && root in s.t.roots && Ranks(age)
    ensures FinishedIn(Run(s, Refusals(root, age, s.t.drawn, 129))) == 129
  {
    hide Inv, Run, Ranks, FinishedIn, Refusals;
    RefusalsCount(s, root, age, MAX_FINISHED_RENDITIONS + 1);
  }
}
