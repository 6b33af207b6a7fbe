/**
 The durable catalogue: the SQLite tables as maps keyed by row id, and the
 relational facts every transaction must keep.

 An id is the serial number of its UUID draw: `drawn` is the next unused one,
 so two draws never collide.  The textual order of UUIDs is unrelated to the
 draw order; where it matters it is a separate parameter.
 */
module Tables {
  import opened Wrappers

  type Id = nat

  // One directory entry name.  Only equality and the byte order of names are used.
  type Name = nat

  // A path relative to a Root, as its components.
  type Path = seq<Name>

  datatype LocationState =
    | Present | Missing | PermissionDenied | OfflineRoot | Unreadable | MovedCandidate

  datatype Lineage = Active | Lost

  datatype RootState =
    | Connected | Scanning | Ready | NeedsPermission | OfflineVolume | Unavailable | Errored

  datatype JobKind = InitialScan | RenditionGeneration

  datatype JobState = Queued | Running | Completed | Failed | Cancelled {
    predicate Terminal() { Completed? || Failed? || Cancelled? }
  }

  datatype ReviewState = Unreviewed | Keep | Maybe | Reject

  // What classification and dimension probing observe of a file.
  datatype Media = Media(mime: string, extension: Option<string>, preview: string,
                         width: nat, height: nat, grid: bool)

  // One accepted file: everything inspection derives from it apart from its path.
  datatype Facts = Facts(display: string, size: nat, mtime: Option<int>, fingerprint: string,
                         fileId: Option<string>, links: Option<nat>, readable: bool,
                         family: string, media: Media)

  datatype Candidate = Candidate(path: Path, facts: Facts) {
    function State(): LocationState { if facts.readable then Present else Unreadable }
    predicate Unsupported() { facts.media.preview == "none" }
  }

  datatype Root = Root(display: string, linked: bool, state: RootState)
  datatype Source = Source(family: string, current: Id, lineage: Lineage)
  datatype Revision = Revision(source: Id, size: nat, mtime: Option<int>,
                               fingerprint: Option<string>, media: Media)
  datatype Location = Location(root: Id, source: Id, path: Path, display: string,
                               fileId: Option<string>, state: LocationState,
                               size: Option<nat>, mtime: Option<int>)
  datatype Asset = Asset(title: Option<string>, review: ReviewState, note: Option<string>,
                         tags: seq<string>, usedIn: seq<string>, revision: nat)
  datatype Origin = Origin(asset: Id, source: Id)
  datatype Collection = Collection(name: string, revision: nat)
  datatype Job = Job(kind: JobKind, root: Id, state: JobState, observed: nat, unsupported: nat)

  datatype Tables = Tables(
    library: string,
    roots: map<Id, Root>,
    sources: map<Id, Source>,
    revisions: map<Id, Revision>,
    locations: map<Id, Location>,
    origins: map<Id, Origin>,
    assets: map<Id, Asset>,
    collections: map<Id, Collection>,
    members: set<(Id, Id)>,
    jobs: map<Id, Job>,
    revision: nat,
    drawn: nat)

  // Every id of a table has been drawn.
  ghost predicate Below(ids: set<Id>, drawn: nat) {
    forall k <- ids :: k < drawn
  }

  ghost predicate Drawn(t: Tables) {
    && Below(t.roots.Keys, t.drawn) && Below(t.sources.Keys, t.drawn)
    && Below(t.revisions.Keys, t.drawn) && Below(t.locations.Keys, t.drawn)
    && Below(t.origins.Keys, t.drawn) && Below(t.assets.Keys, t.drawn)
    && Below(t.collections.Keys, t.drawn) && Below(t.jobs.Keys, t.drawn)
  }

  // Foreign keys of Locations.
  ghost predicate Placed(locations: map<Id, Location>, roots: set<Id>, sources: set<Id>) {
    forall l <- locations :: locations[l].root in roots && locations[l].source in sources
  }

  // The current revision of a Source exists and belongs to it, and no revision
  // is orphaned.
  ghost predicate Owned(sources: map<Id, Source>, revisions: map<Id, Revision>) {
    && (forall s <- sources :: sources[s].current in revisions && revisions[sources[s].current].source == s)
    && (forall r <- revisions :: revisions[r].source in sources)
  }

  ghost predicate Attributed(origins: map<Id, Origin>, assets: set<Id>, sources: set<Id>) {
    forall o <- origins :: origins[o].asset in assets && origins[o].source in sources
  }

  ghost predicate Filed(members: set<(Id, Id)>, collections: set<Id>, assets: set<Id>) {
    forall m <- members :: m.0 in collections && m.1 in assets
  }

  ghost predicate Linked(t: Tables) {
    && Placed(t.locations, t.roots.Keys, t.sources.Keys)
    && Owned(t.sources, t.revisions)
    && Attributed(t.origins, t.assets.Keys, t.sources.Keys)
    && Filed(t.members, t.collections.Keys, t.assets.Keys)
  }

  // No Source has two Locations.
  ghost predicate OneHome(locations: map<Id, Location>) {
    forall a, b | a in locations && b in locations && a != b :: locations[a].source != locations[b].source
  }

  // No Root has two Locations at one path.
  ghost predicate OnePath(locations: map<Id, Location>) {
    forall a, b | a in locations && b in locations && a != b && locations[a].root == locations[b].root ::
      locations[a].path != locations[b].path
  }

  // No Source and no Asset has two origins.
  ghost predicate OneOrigin(origins: map<Id, Origin>) {
    forall a, b | a in origins && b in origins && a != b ::
      origins[a].source != origins[b].source && origins[a].asset != origins[b].asset
  }

  ghost predicate Exclusive(t: Tables) {
    OneHome(t.locations) && OnePath(t.locations) && OneOrigin(t.origins)
  }

  ghost predicate Housed(locations: map<Id, Location>, s: Id) {
    exists l :: l in locations && locations[l].source == s
  }

  ghost predicate Depicted(origins: map<Id, Origin>, s: Id) {
    exists o :: o in origins && origins[o].source == s
  }

  ghost predicate Curated(origins: map<Id, Origin>, a: Id) {
    exists o :: o in origins && origins[o].asset == a
  }

  ghost predicate AllHoused(locations: map<Id, Location>, sources: set<Id>) {
    forall s {:trigger Housed(locations, s)} | s in sources :: Housed(locations, s)
  }

  ghost predicate AllOriginated(origins: map<Id, Origin>, sources: set<Id>, assets: set<Id>) {
    && (forall s {:trigger Depicted(origins, s)} | s in sources :: Depicted(origins, s))
    && (forall a {:trigger Curated(origins, a)} | a in assets :: Curated(origins, a))
  }

  // Every Source has a Location and an origin, every Asset has an origin.
  ghost predicate Inhabited(t: Tables) {
    AllHoused(t.locations, t.sources.Keys) && AllOriginated(t.origins, t.sources.Keys, t.assets.Keys)
  }

  ghost predicate Consistent(t: Tables) {
    Drawn(t) && Linked(t) && Exclusive(t) && Inhabited(t)
  }

  // What a revision, Location or origin says about identity and content, which
  // no later transaction may rewrite.
  ghost predicate KeepsRevisions(a: map<Id, Revision>, b: map<Id, Revision>) {
    forall r <- a :: r in b && b[r].source == a[r].source && b[r].size == a[r].size && b[r].fingerprint == a[r].fingerprint
  }

  ghost predicate KeepsLocations(a: map<Id, Location>, b: map<Id, Location>) {
    forall l <- a :: l in b && b[l].root == a[l].root && b[l].source == a[l].source
  }

  ghost predicate KeepsOrigins(a: map<Id, Origin>, b: map<Id, Origin>) {
    forall o <- a :: o in b && b[o] == a[o]
  }

  // The identity links of `a` all stand unchanged in `b`: no Source, revision,
  // Location, origin or Asset was deleted or pointed elsewhere.
  ghost predicate KeepsIdentity(a: Tables, b: Tables) {
    && a.roots.Keys <= b.roots.Keys && a.sources.Keys <= b.sources.Keys && a.assets.Keys <= b.assets.Keys
    && KeepsRevisions(a.revisions, b.revisions)
    && KeepsLocations(a.locations, b.locations)
    && KeepsOrigins(a.origins, b.origins)
  }

  function Bump(t: Tables): (r: Tables)
  {
    t.(revision := t.revision + 1)
  }
}
