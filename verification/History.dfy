/**
 Every run of a Library: scans of several Roots, root commands, edits, rendition
 jobs, crashes and reopenings, interleaved one transaction at a time.
 */
module History {
  import opened Wrappers
  import opened Sets
  import opened Tables
  import opened Reconcile
  import opened ScanOutcome
  import opened Commands
  import opened Projection

  // Where a rendition is: its row written and nothing else, in the engine's
  // queue, or taken by a worker.
  datatype Phase = Admitted | Enqueued | Started

  // The tables; by their jobs, the Root each live scan thread works on, and the
  // renditions that are still under way.
  datatype State = State(t: Tables, scans: map<Id, Id>, works: map<Id, Phase>)

  datatype Action =
    | AddsRoot(found: Option<Id>, display: string)
    | BindsRoot(bound: Id)
    | ScansRoot(rescanned: Id, authorized: set<Id>)
    | Flushes(flush: Id, cs: seq<Candidate>, gone: Path -> bool, observed: nat, unsupported: nat)
    | MarksUnseen(mark: Id, seen: set<Path>, notes: map<Path, LocationState>, sealed: set<Path>)
    | Finishes(finish: Id, jobState: JobState, total: nat, unusable: nat)
    | Fails(failed: Id, fault: Fault)
    | Vanishes(lost: Id)
    | Edits(asset: Id, expected: nat, patch: Patch)
    | CreatesCollection(name: string)
    | RenamesCollection(renamed: Id, known: nat, newName: string)
    | DeletesCollection(deleted: Id)
    | SetsMembership(collection: Id, assets: seq<Id>, member: bool)
    | RequestsRendition(root: Id, age: Id -> int)
    | RefusesRendition(refused: Id)
    | EnqueuesRendition(queued: Id)
    | StartsRendition(started: Id, since: Id -> int)
    | EndsRendition(ended: Id, outcome: JobState, now: Id -> int)
    | LosesRendition(dropped: Id)
    | Reopens(writes: nat)

  function OrSame(s: State, r: Result<Tables, Refusal>): State {
    match r
    case Ok(t) => s.(t := t)
    case Err(_) => s
  }

  // A command that starts a scan also starts its thread.
  function Spawned(s: State, root: Id, job: Id, r: Result<Tables, Refusal>): State {
    match r
    case Ok(t) => s.(t := t, scans := s.scans[job := root])
    case Err(_) => s
  }

  predicate Held(works: map<Id, Phase>, job: Id, phase: Phase) { job in works && works[job] == phase }

  predicate OfScan(a: Action) { a.Flushes? || a.MarksUnseen? || a.Finishes? || a.Fails? || a.Vanishes? }

  predicate OfRoot(a: Action) { a.AddsRoot? || a.BindsRoot? || a.ScansRoot? }

  predicate Rendering(a: Action) {
    a.RequestsRendition? || a.RefusesRendition? || a.EnqueuesRendition? || a.StartsRendition? || a.EndsRendition? || a.LosesRendition?
  }

  // A scan's transactions come from its live thread.
  ghost function ScanStep(s: State, a: Action): State
    requires Inv(s) && OfScan(a)
  {
    match a
    case Flushes(job, cs, gone, observed, unsupported) =>
      if job !in s.scans then s else
        var merged := All(s.t, s.scans[job], cs, gone);
        s.(t := merged.(jobs := Progressed(merged.jobs, job, observed, unsupported), revision := merged.revision + 1))
    case MarksUnseen(job, seen, notes, sealed) =>
      if job !in s.scans then s else s.(t := MarkUnseen(s.t, s.scans[job], seen, notes, sealed))
    case Finishes(job, jobState, observed, unsupported) =>
      if job !in s.scans || !(jobState.Completed? || jobState.Cancelled?) then s else
        s.(t := Bump(Concluded(s.t, s.scans[job], if jobState.Completed? then Ready else Connected, job, jobState,
                               observed, unsupported)),
           scans := s.scans - {job})
    case Fails(job, fault) =>
      if job !in s.scans then s else s.(t := Bump(FailedScan(s.t, s.scans[job], job, fault)), scans := s.scans - {job})
    case Vanishes(job) => s.(scans := s.scans - {job})
  }

  function RootStep(s: State, a: Action): State
    requires OfRoot(a)
  {
    match a
    case AddsRoot(found, display) =>
      var root, job := if found.Some? then found.value else s.t.drawn, if found.Some? then s.t.drawn else s.t.drawn + 1;
      Spawned(s, root, job, AddRoot(s.t, found, display))
    case BindsRoot(root) => OrSame(s, BindRoot(s.t, root))
    case ScansRoot(root, authorized) => Spawned(s, root, s.t.drawn, ScanRoot(s.t, root, authorized))
  }

  // A rendition's row is written by whoever has it: the session that admits or
  // refuses it, then the one worker that takes it from the queue.
  function RenditionStep(s: State, a: Action): State
    requires Rendering(a)
  {
    match a
    case RequestsRendition(root, age) =>
      if root in s.t.roots then s.(t := RequestRendition(s.t, root, age), works := s.works[s.t.drawn := Admitted]) else s
    case RefusesRendition(job) =>
      if Held(s.works, job, Admitted) then s.(t := RefuseRendition(s.t, job), works := s.works - {job}) else s
    case EnqueuesRendition(job) =>
      if Held(s.works, job, Admitted) then s.(works := s.works[job := Enqueued]) else s
    case StartsRendition(job, age) =>
      if Held(s.works, job, Enqueued)
      then s.(t := AdvanceRendition(s.t, job, Running, age), works := s.works[job := Started]) else s
    case EndsRendition(job, outcome, age) =>
      if Held(s.works, job, Started) && outcome.Terminal()
      then s.(t := AdvanceRendition(s.t, job, outcome, age), works := s.works - {job}) else s
    case LosesRendition(job) => s.(works := s.works - {job})
  }

  function EditStep(s: State, a: Action): State {
    match a
    case Edits(asset, expected, patch) => OrSame(s, UpdateAsset(s.t, asset, expected, patch))
    case CreatesCollection(name) => OrSame(s, CreateCollection(s.t, name))
    case RenamesCollection(c, expected, name) => OrSame(s, RenameCollection(s.t, c, expected, name))
    case DeletesCollection(c) => OrSame(s, DeleteCollection(s.t, c))
    case SetsMembership(c, assets, member) => OrSame(s, SetMembership(s.t, c, assets, member))
    case _ => s
  }

  // One transaction, or a hand-over between them; a refused command changes nothing.
  ghost function Step(s: State, a: Action): State
    requires Inv(s)
  {
    if a.Reopens? then State(Recovery(s.t, a.writes), map[], map[])
    else if OfScan(a) then ScanStep(s, a)
    else if OfRoot(a) then RootStep(s, a)
    else if Rendering(a) then RenditionStep(s, a)
    else EditStep(s, a)
  }

  /** What every reachable state satisfies. */

  ghost predicate Unfinished(jobs: map<Id, Job>, j: Id) {
    j in jobs && jobs[j].kind == InitialScan && !jobs[j].state.Terminal()
  }

  // Jobs belong to Roots; no Root has two unfinished scans; a live thread's job
  // is an unfinished scan of its Root.
  ghost predicate Scheduled(jobs: map<Id, Job>, roots: set<Id>, scans: map<Id, Id>) {
    && (forall j <- jobs :: jobs[j].root in roots)
    && (forall a, b | Unfinished(jobs, a) && Unfinished(jobs, b) && a != b :: jobs[a].root != jobs[b].root)
    && (forall j <- scans :: Unfinished(jobs, j) && jobs[j].root == scans[j])
  }

  // The row of a rendition under way says how far it is.
  ghost predicate Manned(jobs: map<Id, Job>, works: map<Id, Phase>) {
    forall j <- works :: j in jobs && jobs[j].kind == RenditionGeneration && jobs[j].state == if works[j].Started? then Running else Queued
  }

  ghost predicate Inv(s: State) {
    Consistent(s.t) && WithinLimits(s.t) && Scheduled(s.t.jobs, s.t.roots.Keys, s.scans) && Manned(s.t.jobs, s.works)
  }

  // Rows of jobs only move forward: a finished job stays as it is, a scan job
  // is never removed, and no id is used again.
  ghost predicate Forward(a: Tables, b: Tables) {
    && a.drawn <= b.drawn
    && (forall j <- b.jobs :: j in a.jobs || j >= a.drawn)
    && (forall j <- a.jobs :: a.jobs[j].kind == InitialScan ==> j in b.jobs)
    && (forall j | j in a.jobs && j in b.jobs ::
          && b.jobs[j].kind == a.jobs[j].kind && b.jobs[j].root == a.jobs[j].root
          && (a.jobs[j].state.Terminal() ==> b.jobs[j].state == a.jobs[j].state)
          && (a.jobs[j].state == Running ==> b.jobs[j].state != Queued))
  }

  lemma ForwardTransitive(a: Tables, b: Tables, c: Tables)
    requires Forward(a, b) && Forward(b, c) && Below(a.jobs.Keys, a.drawn)
    ensures Forward(a, c)
  {
    forall j | j in a.jobs && j in c.jobs ensures j in b.jobs {
      assert j < a.drawn;
    }
  }

  // What one step may do to the tables.
  ghost predicate Advances(a: Tables, b: Tables) {
    && Consistent(b) && WithinLimits(b) && KeepsIdentity(a, b) && Forward(a, b)
    && a.revision <= b.revision
    && (a.revision == b.revision ==> SameMeaning(a, b))
  }

  // A change outside Sources, revisions, Locations and origins.
  ghost predicate SameCore(a: Tables, b: Tables) {
    && b.sources == a.sources && b.revisions == a.revisions && b.locations == a.locations && b.origins == a.origins
    && b.assets.Keys == a.assets.Keys && a.roots.Keys <= b.roots.Keys && a.drawn <= b.drawn
  }

  lemma SameCoreKeeps(a: Tables, b: Tables)
    requires Consistent(a) && SameCore(a, b)
    requires Below(b.roots.Keys, b.drawn) && Below(b.collections.Keys, b.drawn) && Below(b.jobs.Keys, b.drawn)
    requires Filed(b.members, b.collections.Keys, b.assets.Keys)
    ensures Consistent(b) && KeepsIdentity(a, b)
  {
    assert Placed(b.locations, b.roots.Keys, b.sources.Keys);
  }

  /** Root commands. */

  lemma ScheduleStarts(jobs: map<Id, Job>, roots: set<Id>, scans: map<Id, Id>, root: Id, job: Id)
    requires Scheduled(jobs, roots, scans) && !Busy(jobs, root) && job !in jobs
    ensures Scheduled(jobs[job := NewScan(root)], roots + {root}, scans[job := root])
  {
  }

  lemma StartForward(t: Tables, root: Id, row: Root, job: Id)
    requires Drawn(t) && job >= t.drawn
    ensures Forward(t, StartScan(t, root, row, job))
  {
  }

  lemma StartWithin(t: Tables, root: Id, row: Root, job: Id)
    requires WithinLimits(t) && (root in t.roots || |t.roots| < MAX_ROOTS)
    ensures WithinLimits(StartScan(t, root, row, job))
  {
    assert t.roots[root := row.(state := Scanning)].Keys == t.roots.Keys + {root};
    assert |t.roots.Keys| == |t.roots|;
  }

  lemma StartConsistent(t: Tables, root: Id, row: Root, job: Id)
    requires Consistent(t) && job >= t.drawn && root <= job
    ensures Consistent(StartScan(t, root, row, job)) && KeepsIdentity(t, StartScan(t, root, row, job))
  {
    hide KeepsIdentity, Linked, Exclusive, Inhabited;
    var r := StartScan(t, root, row, job);
    KeysGrown(t.roots, root, r.roots[root]);
    KeysGrown(t.jobs, job, r.jobs[job]);
    assert Filed(t.members, t.collections.Keys, t.assets.Keys) by { LinkedFiled(t); }
    SameCoreKeeps(t, r);
  }

  lemma LinkedFiled(t: Tables)
    requires Linked(t)
    ensures Filed(t.members, t.collections.Keys, t.assets.Keys)
  {
  }

  lemma StartKeeps(s: State, root: Id, row: Root, job: Id)
    requires Inv(s) && !Busy(s.t.jobs, root)
    requires if root in s.t.roots then job == s.t.drawn else root == s.t.drawn && job == s.t.drawn + 1 && |s.t.roots| < MAX_ROOTS
    ensures var r := StartScan(s.t, root, row, job);
      Advances(s.t, r) && Scheduled(r.jobs, r.roots.Keys, s.scans[job := root])
  {
    var t, scans := s.t, s.scans;
    assert root <= job && job !in t.jobs && Drawn(t);
    hide KeepsIdentity, WithinLimits, Scheduled, Forward, Busy, SameMeaning, Drawn, Linked, Exclusive, Inhabited;
    StartConsistent(t, root, row, job);
    StartWithin(t, root, row, job);
    StartForward(t, root, row, job);
    KeysGrown(t.roots, root, row.(state := Scanning));
    ScheduleStarts(t.jobs, t.roots.Keys, scans, root, job);
  }

  lemma BindKeeps(t: Tables, root: Id)
    requires Consistent(t) && WithinLimits(t) && BindRoot(t, root).Ok?
    ensures Advances(t, BindRoot(t, root).value)
    ensures BindRoot(t, root).value.jobs == t.jobs && BindRoot(t, root).value.roots.Keys == t.roots.Keys
  {
    hide KeepsIdentity, DistinctNames;
    var r := BindRoot(t, root).value;
    assert r.roots.Keys == t.roots.Keys;
    SameCoreKeeps(t, r);
  }

  /** The transactions of a scan. */

  lemma FlushKeeps(t: Tables, root: Id, job: Id, cs: seq<Candidate>, gone: Path -> bool, observed: nat, unsupported: nat)
    requires Consistent(t) && WithinLimits(t) && root in t.roots
    ensures var merged := All(t, root, cs, gone);
      var r := merged.(jobs := Progressed(merged.jobs, job, observed, unsupported), revision := merged.revision + 1);
      && Advances(t, r) && r.roots == t.roots && r.jobs == Progressed(t.jobs, job, observed, unsupported)
  {
    hide KeepsIdentity, DistinctNames, All;
    var merged := All(t, root, cs, gone);
    AllKeepsCuration(t, root, cs, gone);
    var r := merged.(jobs := Progressed(merged.jobs, job, observed, unsupported), revision := merged.revision + 1);
    assert r.jobs.Keys == t.jobs.Keys;
    SameCoreKeeps(merged, r);
    KeepsIdentityTransitive(t, merged, r);
  }

  lemma MarkKeeps(t: Tables, root: Id, seen: set<Path>, notes: map<Path, LocationState>, sealed: set<Path>)
    requires Consistent(t) && WithinLimits(t)
    ensures var r := MarkUnseen(t, root, seen, notes, sealed);
      Advances(t, r) && r.roots == t.roots && r.jobs == t.jobs
  {
    hide KeepsIdentity, DistinctNames, Drawn, Linked, Exclusive, Inhabited;
    MarkUnseenKeeps(t, root, seen, notes, sealed);
    var r := MarkUnseen(t, root, seen, notes, sealed);
    assert Forward(t, r) && WithinLimits(r);
  }

  lemma FinishKeeps(t: Tables, root: Id, rootState: RootState, job: Id, jobState: JobState, observed: nat, unsupported: nat)
    requires Consistent(t) && WithinLimits(t) && root in t.roots && Unfinished(t.jobs, job) && jobState.Terminal()
    ensures Advances(t, Bump(Concluded(t, root, rootState, job, jobState, observed, unsupported)))
  {
    hide KeepsIdentity, DistinctNames;
    var r := Bump(Concluded(t, root, rootState, job, jobState, observed, unsupported));
    assert r.roots.Keys == t.roots.Keys && r.jobs.Keys == t.jobs.Keys;
    SameCoreKeeps(t, r);
  }

  lemma FailKeeps(t: Tables, root: Id, job: Id, fault: Fault)
    requires Consistent(t) && WithinLimits(t) && root in t.roots && Unfinished(t.jobs, job)
    ensures Advances(t, Bump(FailedScan(t, root, job, fault)))
  {
    hide KeepsIdentity, DistinctNames, OneOrigin, AllOriginated, OneHome, OnePath, AllHoused, KeepsLocations;
    var r := Bump(FailedScan(t, root, job, fault));
    var m := t.(locations := r.locations);
    assert SameShape(t.locations, m.locations);
    SameShapeKeeps(t.locations, m.locations, t.roots.Keys, t.sources.Keys);
    assert Consistent(m);
    assert KeepsIdentity(t, m) by { SameTables(t, m); }
    assert r.roots.Keys == t.roots.Keys && r.jobs.Keys == t.jobs.Keys;
    SameCoreKeeps(m, r);
    KeepsIdentityTransitive(t, m, r);
  }

  lemma SameTables(t: Tables, m: Tables)
    requires m == t.(locations := m.locations) && KeepsLocations(t.locations, m.locations)
    ensures KeepsIdentity(t, m)
  {
  }

  // One unfinished scan ends, or only its progress changes: the schedule stands.
  lemma ScheduleEnds(jobs: map<Id, Job>, after: map<Id, Job>, roots: set<Id>, scans: map<Id, Id>, job: Id)
    requires Scheduled(jobs, roots, scans) && job in jobs && after.Keys == jobs.Keys
    requires forall j <- jobs :: after[j].root == jobs[j].root && after[j].kind == jobs[j].kind
    requires forall j <- jobs | j != job :: after[j] == jobs[j]
    requires !after[job].state.Terminal() ==> after[job].state == jobs[job].state
    ensures Scheduled(after, roots, scans - {job})
    ensures after[job].state == jobs[job].state ==> Scheduled(after, roots, scans)
  {
  }

  /** Editing. */

  lemma EditKeeps(t: Tables, asset: Id, expected: nat, patch: Patch)
    requires Consistent(t) && WithinLimits(t) && UpdateAsset(t, asset, expected, patch).Ok?
    ensures Advances(t, UpdateAsset(t, asset, expected, patch).value)
  {
    hide KeepsIdentity, DistinctNames;
    var r := UpdateAsset(t, asset, expected, patch).value;
    assert r.assets.Keys == t.assets.Keys;
    SameCoreKeeps(t, r);
  }

  lemma NamePut(m: map<Id, Collection>, c: Id, x: Collection)
    requires DistinctNames(m) && !NameTaken(m, x.name, Some(c))
    ensures DistinctNames(m[c := x])
  {
  }

  lemma NameKept(m: map<Id, Collection>, c: Id, x: Collection)
    requires DistinctNames(m) && c in m && x.name == m[c].name
    ensures DistinctNames(m[c := x])
  {
  }

  lemma MeansItself(t: Tables)
    ensures SameMeaning(t, t)
  {
  }

  lemma FreeName(collections: map<Id, Collection>, name: string, c: Id)
    requires !NameTaken(collections, name, None)
    ensures !NameTaken(collections, name, Some(c))
  {
    assert forall k <- collections | Lower(collections[k].name) == Lower(name) :: NameTaken(collections, name, None);
  }

  lemma CreateConsistent(t: Tables, name: string)
    requires Consistent(t) && CreateCollection(t, name).Ok?
    ensures Consistent(CreateCollection(t, name).value) && KeepsIdentity(t, CreateCollection(t, name).value)
  {
    hide KeepsIdentity, DistinctNames, Linked, Exclusive, Inhabited, NameTaken, SameRows, Filed;
    var r := CreateCollection(t, name).value;
    KeysGrown(t.collections, t.drawn, Collection(name, 0));
    LinkedFiled(t);
    FiledGrows(t.members, t.collections.Keys, t.drawn, t.assets.Keys);
    SameCoreKeeps(t, r);
  }

  lemma CreateKeeps(t: Tables, name: string)
    requires Consistent(t) && WithinLimits(t) && CreateCollection(t, name).Ok?
    ensures Advances(t, CreateCollection(t, name).value)
  {
    hide KeepsIdentity, DistinctNames, SameMeaning, Consistent, NameTaken, SameRows;
    CreateConsistent(t, name);
    FreeName(t.collections, name, t.drawn);
    NamePut(t.collections, t.drawn, Collection(name, 0));
    KeysGrown(t.collections, t.drawn, Collection(name, 0));
  }

  lemma FiledGrows(members: set<(Id, Id)>, collections: set<Id>, c: Id, assets: set<Id>)
    requires Filed(members, collections, assets)
    ensures Filed(members, collections + {c}, assets)
  {
  }

  lemma RenameKeeps(t: Tables, c: Id, expected: nat, name: string)
    requires Consistent(t) && WithinLimits(t) && RenameCollection(t, c, expected, name).Ok?
    ensures Advances(t, RenameCollection(t, c, expected, name).value)
  {
    hide KeepsIdentity, DistinctNames;
    var r := RenameCollection(t, c, expected, name).value;
    NamePut(t.collections, c, r.collections[c]);
    assert r.collections.Keys == t.collections.Keys;
    SameCoreKeeps(t, r);
  }

  lemma DeleteKeeps(t: Tables, c: Id)
    requires Consistent(t) && WithinLimits(t) && DeleteCollection(t, c).Ok?
    ensures Advances(t, DeleteCollection(t, c).value)
  {
    hide KeepsIdentity;
    var r := DeleteCollection(t, c).value;
    assert r.collections.Keys == t.collections.Keys - {c};
    SubsetSize(r.collections.Keys, t.collections.Keys);
    SameCoreKeeps(t, r);
  }

  lemma MembershipKeeps(t: Tables, c: Id, assets: seq<Id>, member: bool)
    requires Consistent(t) && WithinLimits(t) && SetMembership(t, c, assets, member).Ok?
    ensures Advances(t, SetMembership(t, c, assets, member).value)
  {
    hide KeepsIdentity, DistinctNames, SameMeaning;
    var r := SetMembership(t, c, assets, member).value;
    if r != t {
      KeysKept(t.collections, c, r.collections[c]);
      NameKept(t.collections, c, r.collections[c]);
      SameCoreKeeps(t, r);
    } else {
      SameCoreKeeps(t, t);
      assert SameMeaning(t, t) by { MeansItself(t); }
    }
  }

  /** Rendition jobs, crashes. */

  // The new ledger differs from the table's in rendition rows, which may be
  // new or moved forward.
  ghost predicate OnlyRenditions(t: Tables, jobs: map<Id, Job>, drawn: nat) {
    && t.drawn <= drawn && t.jobs.Keys <= jobs.Keys
    && (forall j <- jobs :: j < drawn && jobs[j].root in t.roots && (j in t.jobs || j >= t.drawn))
    && (forall j <- jobs :: if j in t.jobs then MovedOn(t.jobs[j], jobs[j]) else jobs[j].kind == RenditionGeneration)
  }

  ghost predicate MovedOn(a: Job, b: Job) {
    && b.kind == a.kind && b.root == a.root && (a.kind == InitialScan ==> b == a)
    && (a.state.Terminal() ==> b.state == a.state) && (a.state == Running ==> b.state != Queued)
  }

  // What pruning keeps: every scan job, and rows as they are.
  ghost predicate Thinned(jobs: map<Id, Job>, p: map<Id, Job>) {
    && (forall j <- p :: j in jobs && p[j] == jobs[j])
    && (forall j <- jobs :: jobs[j].kind == InitialScan ==> j in p)
  }

  lemma ThinnedSchedule(t: Tables, jobs: map<Id, Job>, p: map<Id, Job>, drawn: nat, scans: map<Id, Id>)
    requires OnlyRenditions(t, jobs, drawn) && Thinned(jobs, p) && Scheduled(t.jobs, t.roots.Keys, scans)
    ensures Scheduled(p, t.roots.Keys, scans) && Forward(t, t.(jobs := p, drawn := drawn)) && Below(p.Keys, drawn)
  {
  }

  lemma JobsMeanNothing(t: Tables, r: Tables)
    requires r == t.(jobs := r.jobs, drawn := r.drawn)
    ensures SameMeaning(t, r)
  {
  }

  lemma ThinnedKeeps(s: State, jobs: map<Id, Job>, p: map<Id, Job>, drawn: nat)
    requires Inv(s) && OnlyRenditions(s.t, jobs, drawn) && Thinned(jobs, p)
    ensures Advances(s.t, s.t.(jobs := p, drawn := drawn)) && Scheduled(p, s.t.roots.Keys, s.scans)
  {
    var t, scans := s.t, s.scans;
    ThinnedSchedule(t, jobs, p, drawn, scans);
    assert t.drawn <= drawn;
    hide KeepsIdentity, DistinctNames, Scheduled, Forward, SameMeaning, OnlyRenditions, Thinned;
    SameCoreKeeps(t, t.(jobs := p, drawn := drawn));
    JobsMeanNothing(t, t.(jobs := p, drawn := drawn));
  }

  // What opening writes, as far as it got.
  ghost predicate Reopened(t: Tables, r: Tables) {
    && r == t.(jobs := r.jobs, roots := r.roots, revision := r.revision) && t.revision <= r.revision
    && r.jobs.Keys == t.jobs.Keys && r.roots.Keys == t.roots.Keys && |r.roots| == |t.roots|
    && (forall j <- t.jobs :: r.jobs[j] == t.jobs[j] || (!t.jobs[j].state.Terminal() && r.jobs[j] == t.jobs[j].(state := JobState.Failed)))
    && (forall k <- t.roots :: r.roots[k].display == t.roots[k].display && r.roots[k].linked == t.roots[k].linked)
  }

  lemma RootsReopen(roots: map<Id, Root>, r: map<Id, Root>)
    requires r == ErroredRoots(roots) || r == UnboundRoots(ErroredRoots(roots))
    ensures r.Keys == roots.Keys && |r| == |roots|
    ensures forall k <- roots :: r[k].display == roots[k].display && r[k].linked == roots[k].linked
  {
    assert r.Keys == roots.Keys;
    MapSize(roots, r);
    MapSize(r, roots);
  }

  lemma RecoveryReopens(t: Tables, writes: nat)
    ensures Reopened(t, Recovery(t, writes))
    ensures writes >= 1 ==> forall j <- Recovery(t, writes).jobs :: Recovery(t, writes).jobs[j].state.Terminal()
  {
    var r := Recovery(t, writes);
    assert FailedJobs(t.jobs).Keys == t.jobs.Keys;
    RootsReopen(t.roots, ErroredRoots(t.roots));
    RootsReopen(t.roots, UnboundRoots(ErroredRoots(t.roots)));
    hide ErroredRoots, UnboundRoots, Stale;
  }

  lemma RecoverSchedule(t: Tables, r: Tables, scans: map<Id, Id>)
    requires Drawn(t) && Scheduled(t.jobs, t.roots.Keys, scans) && Reopened(t, r)
    ensures Scheduled(r.jobs, r.roots.Keys, map[]) && Forward(t, r)
  {
  }

  lemma RecoverMeans(t: Tables, r: Tables)
    requires Reopened(t, r)
    ensures SameMeaning(t, r)
  {
    RootsMean(t.roots, r.roots);
  }

  lemma RecoverKeeps(t: Tables, scans: map<Id, Id>, writes: nat)
    requires Consistent(t) && WithinLimits(t) && Scheduled(t.jobs, t.roots.Keys, scans)
    ensures Advances(t, Recovery(t, writes))
    ensures Scheduled(Recovery(t, writes).jobs, Recovery(t, writes).roots.Keys, map[])
    ensures writes >= 1 ==> forall j <- Recovery(t, writes).jobs :: Recovery(t, writes).jobs[j].state.Terminal()
  {
    hide KeepsIdentity, DistinctNames, Scheduled, Forward, SameMeaning, Recovery;
    var r := Recovery(t, writes);
    RecoveryReopens(t, writes);
    RecoverMeans(t, r);
    RecoverSchedule(t, r, scans);
    SameCoreKeeps(t, r);
  }

  lemma StartsThere(s: State)
    requires Inv(s)
    ensures Consistent(s.t) && WithinLimits(s.t) && Advances(s.t, s.t) && Scheduled(s.t.jobs, s.t.roots.Keys, s.scans)
  {
    hide KeepsIdentity, DistinctNames, SameMeaning;
    ThinnedKeeps(s, s.t.jobs, s.t.jobs, s.t.drawn);
  }

  lemma RequestOnly(s: State, root: Id)
    requires Inv(s) && root in s.t.roots
    ensures OnlyRenditions(s.t, s.t.jobs[s.t.drawn := Job(RenditionGeneration, root, Queued, 0, 0)], s.t.drawn + 1)
  {
    hide Linked, Exclusive, Inhabited;
  }

  // A row of a rendition under way moves on when its holder writes it.
  lemma WriteOnly(s: State, job: Id, next: JobState)
    requires Inv(s) && job in s.works && (if next == Running then !s.works[job].Started? else next.Terminal())
    ensures OnlyRenditions(s.t, WriteRendition(s.t.jobs, job, next), s.t.drawn)
  {
    hide Linked, Exclusive, Inhabited, WithinLimits;
  }

  lemma PrunedThins(jobs: map<Id, Job>, age: Id -> int)
    ensures Thinned(jobs, Pruned(jobs, age)) && Thinned(jobs, jobs)
  {
  }

  lemma WriteKeeps(s: State, job: Id, next: JobState, age: Id -> int)
    requires Inv(s) && job in s.works && (if next == Running then !s.works[job].Started? else next.Terminal())
    ensures Advances(s.t, AdvanceRendition(s.t, job, next, age)) && Advances(s.t, s.t.(jobs := WriteRendition(s.t.jobs, job, next)))
    ensures Scheduled(AdvanceRendition(s.t, job, next, age).jobs, s.t.roots.Keys, s.scans)
    ensures Scheduled(WriteRendition(s.t.jobs, job, next), s.t.roots.Keys, s.scans)
  {
    WriteOnly(s, job, next);
    hide Inv, Advances, Scheduled, Pruned, OnlyRenditions, Thinned, WriteRendition;
    var jobs := WriteRendition(s.t.jobs, job, next);
    PrunedThins(jobs, age);
    ThinnedKeeps(s, jobs, Pruned(jobs, age), s.t.drawn);
    ThinnedKeeps(s, jobs, jobs, s.t.drawn);
  }

  lemma RequestKeeps(s: State, root: Id, age: Id -> int)
    requires Inv(s) && root in s.t.roots
    ensures Advances(s.t, RequestRendition(s.t, root, age))
    ensures Scheduled(RequestRendition(s.t, root, age).jobs, s.t.roots.Keys, s.scans)
  {
    hide Inv, Advances, Scheduled, Pruned, OnlyRenditions, Thinned;
    var jobs := s.t.jobs[s.t.drawn := Job(RenditionGeneration, root, Queued, 0, 0)];
    RequestOnly(s, root);
    PrunedThins(jobs, age);
    ThinnedKeeps(s, jobs, Pruned(jobs, age), s.t.drawn + 1);
  }

  lemma RenditionKeeps(s: State, a: Action)
    requires Inv(s) && Rendering(a)
    ensures Advances(s.t, Step(s, a).t) && Scheduled(Step(s, a).t.jobs, Step(s, a).t.roots.Keys, Step(s, a).scans)
  {
    hide Inv, Advances, Scheduled, Pruned, OnlyRenditions, Thinned, WriteRendition,
         ScanStep, RootStep, EditStep, Recovery;
    var t := s.t;
    StartsThere(s);
    match a
    case RequestsRendition(root, age) =>
      if root in t.roots { RequestKeeps(s, root, age); }
    case RefusesRendition(job) =>
      if Held(s.works, job, Admitted) { WriteKeeps(s, job, JobState.Failed, (k: Id) => 0); }
    case EnqueuesRendition(_) =>
    case StartsRendition(job, age) =>
      if Held(s.works, job, Enqueued) { WriteKeeps(s, job, Running, age); }
    case EndsRendition(job, outcome, age) =>
      if Held(s.works, job, Started) && outcome.Terminal() { WriteKeeps(s, job, outcome, age); }
    case LosesRendition(_) =>
  }

  /** Renditions under way keep their rows. */

  ghost predicate KeepsRenditions(a: map<Id, Job>, b: map<Id, Job>) {
    && (forall j <- a :: a[j].kind == RenditionGeneration ==> j in b && b[j] == a[j])
    && (forall j <- b :: b[j].kind == RenditionGeneration ==> j in a && b[j] == a[j])
  }

  // A change of one scan's row leaves them alone.
  lemma ScanRow(jobs: map<Id, Job>, job: Id, x: Job)
    requires job in jobs ==> jobs[job].kind == x.kind == InitialScan
    ensures KeepsRenditions(jobs, if job in jobs then jobs[job := x] else jobs)
  {
  }

  lemma ProgressRow(jobs: map<Id, Job>, job: Id, observed: nat, unsupported: nat)
    requires job in jobs && jobs[job].kind == InitialScan
    ensures KeepsRenditions(jobs, Progressed(jobs, job, observed, unsupported))
  {
    hide KeepsRenditions;
    ScanRow(jobs, job, Progressed(jobs, job, observed, unsupported)[job]);
  }

  lemma ConcludedRow(t: Tables, job: Id, root: Id, x: RootState, y: JobState, observed: nat, unsupported: nat)
    requires job in t.jobs && t.jobs[job].kind == InitialScan
    ensures KeepsRenditions(t.jobs, Concluded(t, root, x, job, y, observed, unsupported).jobs)
  {
    hide KeepsRenditions;
    ScanRow(t.jobs, job, Concluded(t, root, x, job, y, observed, unsupported).jobs[job]);
  }

  lemma FailedRow(t: Tables, job: Id, root: Id, fault: Fault)
    requires job in t.jobs && t.jobs[job].kind == InitialScan
    ensures KeepsRenditions(t.jobs, FailedScan(t, root, job, fault).jobs)
  {
    hide KeepsRenditions;
    ScanRow(t.jobs, job, FailedScan(t, root, job, fault).jobs[job]);
  }

  lemma ScanKeepsRenditions(s: State, a: Action)
    requires Inv(s) && OfScan(a)
    ensures KeepsRenditions(s.t.jobs, Step(s, a).t.jobs) && Step(s, a).works == s.works
  {
    hide Inv, Consistent, KeepsIdentity, All, MarkUnseen, KeepsRenditions, Concluded, FailedScan, Progressed, KeepsCuration;
    RowsStay(s.t.jobs);
    InvJobs(s);
    match a
    case Flushes(job, cs, gone, observed, unsupported) =>
      if job in s.scans {
        AllKeepsJobs(s.t, s.scans[job], cs, gone);
        ProgressRow(s.t.jobs, job, observed, unsupported);
      }
    case Finishes(job, jobState, observed, unsupported) =>
      if job in s.scans {
        ConcludedRow(s.t, job, s.scans[job], if jobState.Completed? then Ready else Connected, jobState, observed, unsupported);
      }
    case Fails(job, fault) =>
      if job in s.scans { FailedRow(s.t, job, s.scans[job], fault); }
    case MarksUnseen(job, seen, notes, sealed) =>
      if job in s.scans { MarkKeepsJobs(s.t, s.scans[job], seen, notes, sealed); }
    case Vanishes(_) =>
  }

  lemma AllKeepsJobs(t: Tables, root: Id, cs: seq<Candidate>, gone: Path -> bool)
    requires Consistent(t) && root in t.roots
    ensures All(t, root, cs, gone).jobs == t.jobs
  {
    AllKeepsCuration(t, root, cs, gone);
  }

  lemma RowsStay(jobs: map<Id, Job>)
    ensures KeepsRenditions(jobs, jobs)
  {
  }

  lemma MarkKeepsJobs(t: Tables, root: Id, seen: set<Path>, notes: map<Path, LocationState>, sealed: set<Path>)
    ensures MarkUnseen(t, root, seen, notes, sealed).jobs == t.jobs
  {
  }

  lemma InvJobs(s: State)
    requires Inv(s)
    ensures s.t.drawn !in s.t.jobs && s.t.drawn + 1 !in s.t.jobs && Manned(s.t.jobs, s.works) && Consistent(s.t)
    ensures forall j <- s.scans :: s.scans[j] in s.t.roots && j in s.t.jobs && s.t.jobs[j].kind == InitialScan
  {
    hide Linked, Exclusive, Inhabited, WithinLimits, Manned;
    assert Below(s.t.jobs.Keys, s.t.drawn);
  }

  lemma CommandKeepsRenditions(s: State, a: Action)
    requires Inv(s) && !OfScan(a) && !Rendering(a) && !a.Reopens?
    ensures KeepsRenditions(s.t.jobs, Step(s, a).t.jobs) && Step(s, a).works == s.works
  {
    RowsStay(s.t.jobs);
    if a.AddsRoot? || a.ScansRoot? {
      InvJobs(s);
      hide Inv, RootStep;
      StartKeepsRenditions(s, a);
    } else {
      hide Inv, ScanStep, RenditionStep, Recovery, KeepsRenditions, SameRows, BindRoot, UpdateAsset, CreateCollection,
           RenameCollection, DeleteCollection, SetMembership;
    }
  }

  lemma StartScanKeeps(t: Tables, root: Id, row: Root, job: Id)
    requires job !in t.jobs
    ensures KeepsRenditions(t.jobs, StartScan(t, root, row, job).jobs)
  {
  }

  lemma StartKeepsRenditions(s: State, a: Action)
    requires s.t.drawn !in s.t.jobs && s.t.drawn + 1 !in s.t.jobs && (a.AddsRoot? || a.ScansRoot?)
    ensures KeepsRenditions(s.t.jobs, RootStep(s, a).t.jobs) && RootStep(s, a).works == s.works
  {
    RowsStay(s.t.jobs);
    var t := s.t;
    hide Busy, StartScan, KeepsRenditions;
    match a
    case AddsRoot(Some(root), display) =>
      if root in t.roots { StartScanKeeps(t, root, t.roots[root].(display := display), t.drawn); }
    case AddsRoot(None, display) => StartScanKeeps(t, t.drawn, Root(display, true, Scanning), t.drawn + 1);
    case ScansRoot(root, _) =>
      if root in t.roots { StartScanKeeps(t, root, t.roots[root], t.drawn); }
  }

  lemma MannedKept(jobs: map<Id, Job>, after: map<Id, Job>, works: map<Id, Phase>)
    requires Manned(jobs, works) && KeepsRenditions(jobs, after)
    ensures Manned(after, works)
  {
  }

  // Pruning takes no row of a rendition under way.
  lemma PrunedManned(jobs: map<Id, Job>, age: Id -> int, works: map<Id, Phase>)
    requires Manned(jobs, works)
    ensures Manned(Pruned(jobs, age), works)
  {
    hide Latest;
  }

  lemma WriteManned(jobs: map<Id, Job>, works: map<Id, Phase>, job: Id, next: JobState)
    requires Manned(jobs, works) && job in works
    ensures next == Running ==> Manned(WriteRendition(jobs, job, next), works[job := Started])
    ensures Manned(WriteRendition(jobs, job, next), works - {job})
  {
  }

  lemma HandOver(jobs: map<Id, Job>, works: map<Id, Phase>, job: Id, root: Id)
    requires Manned(jobs, works)
    ensures job !in jobs ==> Manned(jobs[job := Job(RenditionGeneration, root, Queued, 0, 0)], works[job := Admitted])
    ensures Held(works, job, Admitted) ==> Manned(jobs, works[job := Enqueued])
    ensures Manned(jobs, works - {job})
  {
  }

  lemma RenditionManned(s: State, a: Action)
    requires Manned(s.t.jobs, s.works) && s.t.drawn !in s.t.jobs && Rendering(a)
    ensures Manned(RenditionStep(s, a).t.jobs, RenditionStep(s, a).works)
  {
    var t, works := s.t, s.works;
    hide Pruned, Manned, WriteRendition;
    match a
    case RequestsRendition(root, age) =>
      if root in t.roots {
        HandOver(t.jobs, works, t.drawn, root);
        PrunedManned(t.jobs[t.drawn := Job(RenditionGeneration, root, Queued, 0, 0)], age, works[t.drawn := Admitted]);
      }
    case RefusesRendition(job) =>
      if Held(works, job, Admitted) { WriteManned(t.jobs, works, job, JobState.Failed); }
    case EnqueuesRendition(job) => HandOver(t.jobs, works, job, 0);
    case StartsRendition(job, age) =>
      if Held(works, job, Enqueued) { WriteManned(t.jobs, works, job, Running); }
    case EndsRendition(job, outcome, age) =>
      if Held(works, job, Started) && outcome.Terminal() {
        WriteManned(t.jobs, works, job, outcome);
        PrunedManned(WriteRendition(t.jobs, job, outcome), age, works - {job});
      }
    case LosesRendition(job) => HandOver(t.jobs, works, job, 0);
  }

  lemma StepManned(s: State, a: Action)
    requires Inv(s)
    ensures Manned(Step(s, a).t.jobs, Step(s, a).works)
  {
    hide Inv, RenditionStep, ScanStep, RootStep, EditStep, Recovery;
    InvJobs(s);
    if Rendering(a) {
      hide Manned;
      RenditionManned(s, a);
    } else if !a.Reopens? {
      if OfScan(a) { ScanKeepsRenditions(s, a); } else { CommandKeepsRenditions(s, a); }
      hide Manned, Step, KeepsRenditions;
      MannedKept(s.t.jobs, Step(s, a).t.jobs, s.works);
    }
  }

  /** One step, and every run. */

  lemma FinishEnds(s: State, job: Id, rootState: RootState, jobState: JobState, observed: nat, unsupported: nat)
    requires Inv(s) && job in s.scans && jobState.Terminal()
    ensures s.scans[job] in s.t.roots && job in s.t.jobs
    ensures var r := Bump(Concluded(s.t, s.scans[job], rootState, job, jobState, observed, unsupported));
      Advances(s.t, r) && Scheduled(r.jobs, r.roots.Keys, s.scans - {job})
  {
    hide KeepsIdentity, WithinLimits, Drawn, Linked, Exclusive, Inhabited, SameMeaning, Forward, Advances, Manned;
    var t, root := s.t, s.scans[job];
    StartsThere(s);
    FinishKeeps(t, root, rootState, job, jobState, observed, unsupported);
    var r := Bump(Concluded(t, root, rootState, job, jobState, observed, unsupported));
    KeysKept(t.roots, root, r.roots[root]);
    ScheduleEnds(t.jobs, r.jobs, t.roots.Keys, s.scans, job);
  }

  lemma FailEnds(s: State, job: Id, fault: Fault)
    requires Inv(s) && job in s.scans
    ensures s.scans[job] in s.t.roots && job in s.t.jobs
    ensures var r := Bump(FailedScan(s.t, s.scans[job], job, fault));
      Advances(s.t, r) && Scheduled(r.jobs, r.roots.Keys, s.scans - {job})
  {
    hide KeepsIdentity, WithinLimits, Drawn, Linked, Exclusive, Inhabited, SameMeaning, Forward, Advances, Manned;
    var t, root := s.t, s.scans[job];
    StartsThere(s);
    FailKeeps(t, root, job, fault);
    var r := Bump(FailedScan(t, root, job, fault));
    KeysKept(t.roots, root, r.roots[root]);
    ScheduleEnds(t.jobs, r.jobs, t.roots.Keys, s.scans, job);
  }

  lemma ScanStepKeeps(s: State, a: Action)
    requires Inv(s) && OfScan(a)
    ensures Advances(s.t, Step(s, a).t) && Scheduled(Step(s, a).t.jobs, Step(s, a).t.roots.Keys, Step(s, a).scans)
  {
    hide KeepsIdentity, WithinLimits, Drawn, Linked, Exclusive, Inhabited, SameMeaning, Forward, Advances, All, MarkUnseen, Manned,
         RootStep, RenditionStep, EditStep, Recovery;
    var t, r := s.t, Step(s, a);
    StartsThere(s);
    match a
    case Flushes(job, cs, gone, observed, unsupported) =>
      if job in s.scans {
        FlushKeeps(t, s.scans[job], job, cs, gone, observed, unsupported);
        ScheduleEnds(t.jobs, r.t.jobs, t.roots.Keys, s.scans, job);
      }
    case MarksUnseen(job, seen, notes, sealed) =>
      if job in s.scans { MarkKeeps(t, s.scans[job], seen, notes, sealed); }
    case Finishes(job, jobState, observed, unsupported) =>
      if job in s.scans && (jobState.Completed? || jobState.Cancelled?) {
        FinishEnds(s, job, if jobState.Completed? then Ready else Connected, jobState, observed, unsupported);
      }
    case Fails(job, fault) =>
      if job in s.scans { FailEnds(s, job, fault); }
    case Vanishes(job) =>
  }

  lemma CommandKeeps(s: State, a: Action)
    requires Inv(s) && !OfScan(a) && !Rendering(a)
    ensures Advances(s.t, Step(s, a).t) && Scheduled(Step(s, a).t.jobs, Step(s, a).t.roots.Keys, Step(s, a).scans)
  {
    hide Inv, Scheduled, WithinLimits, Consistent, StartScan, Busy, NameTaken, Advances, ScanStep, RenditionStep, Recovery;
    var t := s.t;
    StartsThere(s);
    match a
    case AddsRoot(found, display) =>
      if AddRoot(t, found, display).Ok? { AddKeeps(s, found, display); }
    case BindsRoot(root) =>
      if BindRoot(t, root).Ok? { BindKeeps(t, root); }
    case ScansRoot(root, authorized) =>
      if ScanRoot(t, root, authorized).Ok? { StartKeeps(s, root, t.roots[root], t.drawn); }
    case Edits(asset, expected, patch) =>
      if UpdateAsset(t, asset, expected, patch).Ok? { EditKeeps(t, asset, expected, patch); }
    case CreatesCollection(name) =>
      if CreateCollection(t, name).Ok? { CreateKeeps(t, name); }
    case RenamesCollection(c, expected, name) =>
      if RenameCollection(t, c, expected, name).Ok? { RenameKeeps(t, c, expected, name); }
    case DeletesCollection(c) =>
      if DeleteCollection(t, c).Ok? { DeleteKeeps(t, c); }
    case SetsMembership(c, assets, member) =>
      if SetMembership(t, c, assets, member).Ok? { MembershipKeeps(t, c, assets, member); }
    case Reopens(writes) => RecoverKeeps(t, s.scans, writes);
  }

  lemma FreshRoot(s: State)
    requires Inv(s)
    ensures s.t.drawn !in s.t.roots
  {
    assert Below(s.t.roots.Keys, s.t.drawn);
  }

  lemma AddKeeps(s: State, found: Option<Id>, display: string)
    requires Inv(s) && AddRoot(s.t, found, display).Ok?
    ensures var r := AddRoot(s.t, found, display).value;
      var root, job := if found.Some? then found.value else s.t.drawn, if found.Some? then s.t.drawn else s.t.drawn + 1;
      Advances(s.t, r) && Scheduled(r.jobs, r.roots.Keys, s.scans[job := root])
  {
    hide Inv, StartScan, Busy, Advances, Scheduled;
    FreshRoot(s);
    match found
    case Some(root) => StartKeeps(s, root, s.t.roots[root].(display := display), s.t.drawn);
    case None => StartKeeps(s, s.t.drawn, Root(display, true, Scanning), s.t.drawn + 1);
  }

  lemma StepKeeps(s: State, a: Action)
    requires Inv(s)
    ensures Inv(Step(s, a)) && Advances(s.t, Step(s, a).t)
  {
    hide KeepsIdentity, WithinLimits, Consistent, SameMeaning, Forward, Scheduled, Step;
    StepManned(s, a);
    hide Manned;
    if OfScan(a) {
      ScanStepKeeps(s, a);
    } else if Rendering(a) {
      RenditionKeeps(s, a);
    } else {
      CommandKeeps(s, a);
    }
  }

  ghost function Run(s: State, actions: seq<Action>): (r: State)
    requires Inv(s)
    ensures Inv(r)
    decreases |actions|
  {
    if actions == [] then s else
      var before := Run(s, actions[..|actions| - 1]);
      StepKeeps(before, actions[|actions| - 1]);
      Step(before, actions[|actions| - 1])
  }

  lemma AdvancesTransitive(a: Tables, b: Tables, c: Tables)
    requires Consistent(a) && Advances(a, b) && Advances(b, c)
    ensures Advances(a, c)
  {
    assert Below(a.jobs.Keys, a.drawn);
    ForwardTransitive(a, b, c);
    KeepsIdentityTransitive(a, b, c);
    hide Consistent, WithinLimits, KeepsIdentity, Forward;
  }

  // Whatever is interleaved: the catalogue stays consistent, identity links are
  // never rewritten or deleted, jobs only move forward, and the canonical
  // meaning cannot change without the revision advancing.
  lemma {:induction false} RunAdvances(s: State, actions: seq<Action>)
    requires Inv(s)
    ensures Advances(s.t, Run(s, actions).t)
    decreases |actions|
  {
    hide Step, Inv, KeepsIdentity, Forward, WithinLimits;
    if actions == [] {
      StartsThere(s);
    } else {
      var before := Run(s, actions[..|actions| - 1]);
      RunAdvances(s, actions[..|actions| - 1]);
      StepKeeps(before, actions[|actions| - 1]);
      assert Consistent(s.t) by { StartsThere(s); }
      AdvancesTransitive(s.t, before.t, Run(s, actions).t);
    }
  }

  /** From a new Library on. */

  ghost function NewLibrary(name: string): (s: State)
    ensures Inv(s)
  {
    State(Tables(name, map[], map[], map[], map[], map[], map[], map[], {}, map[], 0, 0), map[], map[])
  }

  ghost predicate OnlyHome(t: Tables, source: Id, l: Id) {
    && l in t.locations && t.locations[l].source == source
    && forall k <- t.locations :: t.locations[k].source == source ==> k == l
  }

  ghost predicate OnlyOrigin(t: Tables, source: Id, o: Id) {
    && o in t.origins && t.origins[o].source == source && t.origins[o].asset in t.assets
    && forall k <- t.origins :: t.origins[k].source == source || t.origins[k].asset == t.origins[o].asset ==> k == o
  }

  // In every run of a new Library each Source has exactly one Location, one
  // origin and through it one Asset of its own, and a current revision that
  // belongs to it.
  lemma OneOfEach(name: string, actions: seq<Action>, source: Id)
    requires source in Run(NewLibrary(name), actions).t.sources
    ensures var t := Run(NewLibrary(name), actions).t;
      && (exists l :: OnlyHome(t, source, l)) && (exists o :: OnlyOrigin(t, source, o))
      && t.sources[source].current in t.revisions && t.revisions[t.sources[source].current].source == source
  {
    var t := Run(NewLibrary(name), actions).t;
    hide Run, Drawn, Filed, OnePath, WithinLimits, Scheduled;
    assert Housed(t.locations, source) && Depicted(t.origins, source);
    var l :| l in t.locations && t.locations[l].source == source;
    assert OnlyHome(t, source, l);
    var o :| o in t.origins && t.origins[o].source == source;
    assert OnlyOrigin(t, source, o);
  }

  // And never two unfinished scans of one Root, nor a scan thread without one.
  lemma OneScanPerRoot(name: string, actions: seq<Action>, a: Id, b: Id)
    ensures var s := Run(NewLibrary(name), actions);
      && (Unfinished(s.t.jobs, a) && Unfinished(s.t.jobs, b) && s.t.jobs[a].root == s.t.jobs[b].root ==> a == b)
      && (a in s.scans && b in s.scans && s.scans[a] == s.scans[b] ==> a == b)
  {
    hide Run, Consistent, WithinLimits;
  }
}
