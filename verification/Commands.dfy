/**
 The commands that change the catalogue between scans, one transaction each, as
 functions from the tables to the tables or to the reason they are refused.
 */
module Commands {
  import opened Wrappers
  import opened Sets
  import opened Tables

  const MAX_ROOTS := 64
  const MAX_COLLECTIONS := 512
  const MAX_ASSET_COLLECTIONS := MAX_COLLECTIONS
  const MAX_COLLECTION_MEMBERSHIP_BATCH := 250

  datatype Refusal =
    | RootNotFound | RootScanInProgress | RootLimitReached | RootPermissionRequired
    | AssetNotFound | RevisionConflict(expected: nat, actual: nat)
    | CollectionNotFound | CollectionNameConflict | CollectionLimitReached
    | MembershipInvalid | AssetCollectionLimitReached

  // No command touches what scans maintain.
  ghost predicate SameRows(t: Tables, r: Tables) {
    r.locations == t.locations && r.sources == t.sources && r.revisions == t.revisions && r.origins == t.origins
  }

  /** Roots and scan jobs. */

  // Some job of the Root, of either kind, is not finished.
  predicate Busy(jobs: map<Id, Job>, root: Id) {
    exists j :: j in jobs && jobs[j].root == root && !jobs[j].state.Terminal()
  }

  function NewScan(root: Id): Job { Job(InitialScan, root, Running, 0, 0) }

  // A Root's row turns to scanning and its job starts, in one transaction.
  function StartScan(t: Tables, root: Id, row: Root, job: Id): Tables {
    t.(roots := t.roots[root := row.(state := Scanning)],
       jobs := t.jobs[job := NewScan(root)],
       revision := t.revision + 1,
       drawn := job + 1)
  }

  // Adding a Root, or scanning again one that the given evidence found to be the same.
  function AddRoot(t: Tables, found: Option<Id>, display: string): (r: Result<Tables, Refusal>)
    ensures r.Ok? ==> SameRows(t, r.value) && r.value.assets == t.assets
  {
    match found
    case Some(root) =>
      if root !in t.roots then Err(RootNotFound)
      else if Busy(t.jobs, root) then Err(RootScanInProgress)
      else Ok(StartScan(t, root, t.roots[root].(display := display), t.drawn))
    case None =>
      if |t.roots| >= MAX_ROOTS then Err(RootLimitReached)
      else if Busy(t.jobs, t.drawn) then Err(RootScanInProgress)
      else Ok(StartScan(t, t.drawn, Root(display, true, Scanning), t.drawn + 1))
  }

  function BindRoot(t: Tables, root: Id): (r: Result<Tables, Refusal>)
    ensures r.Ok? ==> SameRows(t, r.value) && r.value.assets == t.assets && r.value.jobs == t.jobs
  {
    if root !in t.roots then Err(RootNotFound)
    else if Busy(t.jobs, root) then Err(RootScanInProgress)
    else Ok(t.(roots := t.roots[root := t.roots[root].(state := Connected)], revision := t.revision + 1))
  }

  function ScanRoot(t: Tables, root: Id, authorized: set<Id>): (r: Result<Tables, Refusal>)
    ensures r.Ok? ==> SameRows(t, r.value) && r.value.assets == t.assets
  {
    if root !in t.roots then Err(RootNotFound)
    else if root !in authorized then Err(RootPermissionRequired)
    else if Busy(t.jobs, root) then Err(RootScanInProgress)
    else Ok(StartScan(t, root, t.roots[root], t.drawn))
  }

  // What a process that is gone left unfinished.
  predicate Stale(t: Tables) {
    || (exists j :: j in t.jobs && !t.jobs[j].state.Terminal())
    || (exists k :: k in t.roots && t.roots[k].state == Scanning)
  }

  function FailedJobs(jobs: map<Id, Job>): map<Id, Job> {
    map j | j in jobs :: if jobs[j].state.Terminal() then jobs[j] else jobs[j].(state := JobState.Failed)
  }

  function ErroredRoots(roots: map<Id, Root>): map<Id, Root> {
    map k | k in roots :: if roots[k].state == Scanning then roots[k].(state := Errored) else roots[k]
  }

  function UnboundRoots(roots: map<Id, Root>): map<Id, Root> {
    map k | k in roots :: if roots[k].linked && roots[k].state != Errored then roots[k].(state := NeedsPermission) else roots[k]
  }

  const OPENING := 4

  // Opening a Library takes four writes, each committed by itself: unfinished
  // jobs fail, scanning Roots are in error, the revision advances if either
  // changed something, and no linked Root has an authority.  The process may
  // stop after any of them.
  function Recovery(t: Tables, writes: nat): Tables {
    t.(jobs := if writes >= 1 then FailedJobs(t.jobs) else t.jobs,
       roots := if writes >= OPENING then UnboundRoots(ErroredRoots(t.roots))
                else if writes >= 2 then ErroredRoots(t.roots) else t.roots,
       revision := if writes >= 3 && Stale(t) then t.revision + 1 else t.revision)
  }

  lemma RecoveryIdles(jobs: map<Id, Job>, roots: map<Id, Root>)
    ensures FailedJobs(FailedJobs(jobs)) == FailedJobs(jobs)
    ensures ErroredRoots(ErroredRoots(roots)) == ErroredRoots(roots)
    ensures UnboundRoots(ErroredRoots(UnboundRoots(ErroredRoots(roots)))) == UnboundRoots(ErroredRoots(roots))
  {
    assert forall k :: k in UnboundRoots(ErroredRoots(roots)) <==> k in roots;
  }

  lemma Settles(t: Tables, r: Tables)
    requires r.jobs == FailedJobs(t.jobs) && (r.roots == ErroredRoots(t.roots) || r.roots == UnboundRoots(ErroredRoots(t.roots)))
    ensures !Stale(r)
  {
  }

  // Opening again after a process stopped halfway ends with the same rows.  The
  // revision is the same too, unless changes were written and not yet counted,
  // and nothing was left to change.
  lemma RecoverAgain(t: Tables, writes: nat)
    ensures var once, again := Recovery(t, OPENING), Recovery(Recovery(t, writes), OPENING);
      && again == once.(revision := again.revision)
      && (again.revision == once.revision
          <==> (Stale(t) ==> writes == 0 || writes >= 3 || Stale(Recovery(t, writes))))
  {
    RecoveryIdles(t.jobs, t.roots);
    if writes >= 2 { Settles(t, Recovery(t, writes)); }
    hide FailedJobs, ErroredRoots, UnboundRoots, Stale;
    if writes == 0 { assert Recovery(t, 0) == t; }
  }

  /** Rendition jobs. */

  const MAX_FINISHED_RENDITIONS := 128

  predicate Prunable(j: Job) { j.kind == RenditionGeneration && j.state.Terminal() }

  function Finished(jobs: map<Id, Job>): set<Id> {
    set j | j in jobs && Prunable(jobs[j])
  }

  // Only the latest finished rendition jobs stay.
  function Pruned(jobs: map<Id, Job>, age: Id -> int): map<Id, Job> {
    map j | j in jobs && (Prunable(jobs[j]) ==> j in Latest(Finished(jobs), age, MAX_FINISHED_RENDITIONS)) :: jobs[j]
  }

  function RequestRendition(t: Tables, root: Id, age: Id -> int): Tables {
    t.(jobs := Pruned(t.jobs[t.drawn := Job(RenditionGeneration, root, Queued, 0, 0)], age), drawn := t.drawn + 1)
  }

  // A write to a rendition job's row does not look at what is there.
  function WriteRendition(jobs: map<Id, Job>, job: Id, state: JobState): map<Id, Job> {
    if job in jobs && jobs[job].kind == RenditionGeneration then jobs[job := jobs[job].(state := state)] else jobs
  }

  // What a worker writes; a final state also prunes.
  function AdvanceRendition(t: Tables, job: Id, state: JobState, age: Id -> int): Tables {
    var jobs := WriteRendition(t.jobs, job, state);
    t.(jobs := if state.Terminal() then Pruned(jobs, age) else jobs)
  }

  // What the session writes when the engine has no room for the work.
  function RefuseRendition(t: Tables, job: Id): Tables {
    t.(jobs := WriteRendition(t.jobs, job, JobState.Failed))
  }

  /** Editing. */

  datatype TextPatch = Same | Clear | Set(text: string) {
    function Apply(current: Option<string>): Option<string> {
      match this
      case Same => current
      case Clear => None
      case Set(text) => Some(text)
    }
  }

  datatype Patch = Patch(title: TextPatch, review: Option<ReviewState>, note: TextPatch,
                         tags: Option<seq<string>>, usedIn: Option<seq<string>>)
  {
    function Apply(a: Asset): Asset {
      Asset(title.Apply(a.title), if review.Some? then review.value else a.review, note.Apply(a.note),
            if tags.Some? then tags.value else a.tags, if usedIn.Some? then usedIn.value else a.usedIn, a.revision + 1)
    }
  }

  function UpdateAsset(t: Tables, asset: Id, expected: nat, patch: Patch): (r: Result<Tables, Refusal>)
    ensures r.Ok? ==> SameRows(t, r.value) && r.value.jobs == t.jobs
  {
    if asset !in t.assets then Err(AssetNotFound)
    else if t.assets[asset].revision != expected then Err(RevisionConflict(expected, t.assets[asset].revision))
    else Ok(t.(assets := t.assets[asset := patch.Apply(t.assets[asset])], revision := t.revision + 1))
  }

  // SQLite's lower(): only the ASCII capitals change.
  function Lower(s: string): string {
    seq(|s|, i requires 0 <= i < |s| => if 'A' <= s[i] <= 'Z' then s[i] - 'A' + 'a' else s[i])
  }

  // Two letters that differ at most in ASCII case.
  predicate Alike(x: char, y: char) {
    || x == y
    || ('A' <= x <= 'Z' && y as int == x as int + 32)
    || ('A' <= y <= 'Z' && x as int == y as int + 32)
  }

  // Names clash exactly if they differ at most in ASCII case, letter by letter.
  lemma NamesClash(a: string, b: string)
    ensures Lower(a) == Lower(b) <==> |a| == |b| && forall i | 0 <= i < |a| :: Alike(a[i], b[i])
  {
    if Lower(a) == Lower(b) {
      assert |Lower(a)| == |a| && |Lower(b)| == |b|;
      forall i | 0 <= i < |a| ensures Alike(a[i], b[i]) {
        assert Lower(a)[i] == Lower(b)[i];
      }
    }
  }

  predicate NameTaken(collections: map<Id, Collection>, name: string, except: Option<Id>) {
    exists c :: c in collections && Lower(collections[c].name) == Lower(name) && except != Some(c)
  }

  function CreateCollection(t: Tables, name: string): (r: Result<Tables, Refusal>)
    ensures r.Ok? ==> SameRows(t, r.value) && r.value.assets == t.assets && r.value.jobs == t.jobs
  {
    if NameTaken(t.collections, name, None) then Err(CollectionNameConflict)
    else if |t.collections| >= MAX_COLLECTIONS then Err(CollectionLimitReached)
    else Ok(t.(collections := t.collections[t.drawn := Collection(name, 0)], revision := t.revision + 1, drawn := t.drawn + 1))
  }

  function RenameCollection(t: Tables, c: Id, expected: nat, name: string): (r: Result<Tables, Refusal>)
    ensures r.Ok? ==> SameRows(t, r.value) && r.value.assets == t.assets && r.value.jobs == t.jobs
  {
    if c !in t.collections then Err(CollectionNotFound)
    else if t.collections[c].revision != expected then Err(RevisionConflict(expected, t.collections[c].revision))
    else if NameTaken(t.collections, name, Some(c)) then Err(CollectionNameConflict)
    else Ok(t.(collections := t.collections[c := Collection(name, expected + 1)], revision := t.revision + 1))
  }

  // Deleting a Collection cascades to its memberships.
  function DeleteCollection(t: Tables, c: Id): (r: Result<Tables, Refusal>)
    ensures r.Ok? ==> SameRows(t, r.value) && r.value.assets == t.assets && r.value.jobs == t.jobs
  {
    if c !in t.collections then Err(CollectionNotFound)
    else Ok(t.(collections := t.collections - {c},
               members := (set m | m in t.members && m.0 != c),
               revision := t.revision + 1))
  }

  function CollectionsOf(members: set<(Id, Id)>, asset: Id): set<Id> {
    set m | m in members && m.1 == asset :: m.0
  }

  function Ids(assets: seq<Id>): set<Id> { set a | a in assets }

  // The given Assets that are not yet what the command asks for.
  function Affected(t: Tables, c: Id, assets: set<Id>, member: bool): set<(Id, Id)> {
    set a | a in assets && ((c, a) in t.members) != member :: (c, a)
  }

  function SetMembership(t: Tables, c: Id, assets: seq<Id>, member: bool): (r: Result<Tables, Refusal>)
    ensures r.Ok? ==> SameRows(t, r.value) && r.value.assets == t.assets && r.value.jobs == t.jobs
  {
    var ids := Ids(assets);
    if |assets| == 0 || |assets| > MAX_COLLECTION_MEMBERSHIP_BATCH || |ids| != |assets| then Err(MembershipInvalid)
    else if c !in t.collections then Err(CollectionNotFound)
    else if !(ids <= t.assets.Keys) then Err(MembershipInvalid)
    else if member && exists a :: a in ids && (c, a) !in t.members && |CollectionsOf(t.members, a)| >= MAX_ASSET_COLLECTIONS
    then Err(AssetCollectionLimitReached)
    else
      var affected := Affected(t, c, ids, member);
      if affected == {} then Ok(t)
      else Ok(t.(members := if member then t.members + affected else t.members - affected,
                 collections := t.collections[c := t.collections[c].(revision := t.collections[c].revision + 1)],
                 revision := t.revision + 1))
  }

  /** Capacity. */

  ghost predicate DistinctNames(collections: map<Id, Collection>) {
    forall a, b | a in collections && b in collections && a != b :: Lower(collections[a].name) != Lower(collections[b].name)
  }

  ghost predicate WithinLimits(t: Tables) {
    |t.roots| <= MAX_ROOTS && |t.collections| <= MAX_COLLECTIONS && DistinctNames(t.collections)
  }

  // The per-Asset limit is as high as the number of Collections, so a command
  // on an existing Collection is never refused because of it.
  lemma AssetLimitNeverReached(t: Tables, c: Id, assets: seq<Id>, member: bool)
    requires WithinLimits(t) && Filed(t.members, t.collections.Keys, t.assets.Keys)
    ensures SetMembership(t, c, assets, member) != Err(AssetCollectionLimitReached)
  {
    if c in t.collections {
      forall a: Id | (c, a) !in t.members ensures |CollectionsOf(t.members, a)| < MAX_ASSET_COLLECTIONS {
        SubsetSize(CollectionsOf(t.members, a), t.collections.Keys - {c});
        SubsetSize(t.collections.Keys - {c}, t.collections.Keys);
        assert |t.collections.Keys| == |t.collections|;
      }
    }
  }

  // The latest 128 finished rendition jobs survive a pruning, or all of them,
  // and nothing but older finished rendition jobs is removed.
  lemma PrunedBound(jobs: map<Id, Job>, age: Id -> int)
    requires Apart(Finished(jobs), age)
    ensures |Finished(Pruned(jobs, age))| == Min(128, |Finished(jobs)|)
    ensures forall j <- Pruned(jobs, age) :: j in jobs && Pruned(jobs, age)[j] == jobs[j]
    ensures forall j <- jobs | j !in Pruned(jobs, age) :: j in Finished(jobs)
    ensures forall j, k | j in jobs && j !in Pruned(jobs, age) && k in Finished(Pruned(jobs, age)) :: age(j) < age(k)
  {
    LatestAbove(Finished(jobs), age, MAX_FINISHED_RENDITIONS);
    LatestCount(Finished(jobs), age, MAX_FINISHED_RENDITIONS);
    hide Latest;
    assert Finished(Pruned(jobs, age)) == Latest(Finished(jobs), age, MAX_FINISHED_RENDITIONS);
  }

  /** What finishes rendition jobs without pruning. */

  // Queued or running, whether or not anybody works on it.
  function Live(jobs: map<Id, Job>): set<Id> {
    set j | j in jobs && jobs[j].kind == RenditionGeneration && !jobs[j].state.Terminal()
  }

  // A write to one live row finishes at most that one.
  lemma WriteFinishes(jobs: map<Id, Job>, job: Id, state: JobState)
    requires job in Live(jobs)
    ensures Finished(WriteRendition(jobs, job, state)) == Finished(jobs) + if state.Terminal() then {job} else {}
    ensures |Finished(WriteRendition(jobs, job, state))| == |Finished(jobs)| + if state.Terminal() then 1 else 0
  {
  }

  // Opening finishes every live one at once.
  lemma RecoveryFinishes(jobs: map<Id, Job>)
    ensures |Finished(FailedJobs(jobs))| == |Finished(jobs)| + |Live(jobs)|
    ensures Live(FailedJobs(jobs)) == {}
  {
    assert Finished(FailedJobs(jobs)) == Finished(jobs) + Live(jobs);
  }
}
