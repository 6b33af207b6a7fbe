/**
 What merging inspected files into the catalogue means, as functions on the
 tables, and what it guarantees for one Root.
 */
module Reconcile {
  import opened Wrappers
  import opened Tables

  /** Finding the row a candidate belongs to. */

  ghost predicate At(locations: map<Id, Location>, l: Id, root: Id, path: Path) {
    l in locations && locations[l].root == root && locations[l].path == path
  }

  ghost function Existing(locations: map<Id, Location>, root: Id, path: Path): (r: Option<Id>)
    ensures r.Some? <==> exists l :: At(locations, l, root, path)
    ensures r.Some? ==> At(locations, r.value, root, path)
  {
    if exists l :: At(locations, l, root, path) then
      var l :| At(locations, l, root, path);
      Some(l)
    else None
  }

  ghost function CurrentRevision(t: Tables, l: Id): Revision
    requires Linked(t) && l in t.locations
  {
    t.revisions[t.sources[t.locations[l].source].current]
  }

  // Another Location of the Root that was last seen with the candidate's file id.
  ghost predicate Twin(t: Tables, l: Id, root: Id, c: Candidate) {
    && l in t.locations
    && t.locations[l].root == root
    && t.locations[l].fileId == c.facts.fileId
    && t.locations[l].path != c.path
  }

  // The strict evidence for a rename: `l` is the only twin, the file has one
  // link, size and fingerprint match, and nothing is left at the old path.
  ghost predicate Renamed(t: Tables, l: Id, root: Id, c: Candidate, gone: Path -> bool)
    requires Linked(t)
  {
    && c.facts.fileId.Some?
    && c.facts.links == Some(1)
    && Twin(t, l, root, c)
    && (forall k | Twin(t, k, root, c) :: k == l)
    && CurrentRevision(t, l).size == c.facts.size
    && CurrentRevision(t, l).fingerprint == Some(c.facts.fingerprint)
    && gone(t.locations[l].path)
  }

  ghost function Relocated(t: Tables, root: Id, c: Candidate, gone: Path -> bool): (r: Option<Id>)
    requires Linked(t)
    ensures r.Some? <==> exists l :: Renamed(t, l, root, c, gone)
    ensures r.Some? ==> Renamed(t, r.value, root, c, gone)
  {
    if exists l :: Renamed(t, l, root, c, gone) then
      var l :| Renamed(t, l, root, c, gone);
      Some(l)
    else None
  }

  /** The three row updates. */

  ghost function Relocate(t: Tables, l: Id, c: Candidate): Tables
    requires l in t.locations
  {
    t.(locations := t.locations[l := t.locations[l].(path := c.path, display := c.facts.display, state := MovedCandidate)])
  }

  // The Location and Source rows now describe the candidate; a different
  // fingerprint starts a new revision, an equal one updates what was probed.
  ghost function Refresh(t: Tables, l: Id, c: Candidate): Tables
    requires Linked(t) && l in t.locations
  {
    var f := c.facts;
    var s := t.locations[l].source;
    var now := CurrentRevision(t, l);
    var same := now.fingerprint == Some(f.fingerprint);
    var current := if same then t.sources[s].current else t.drawn;
    Observe(t, l,
            t.locations[l].(state := c.State(), display := f.display, size := Some(f.size),
                            mtime := f.mtime, fileId := f.fileId),
            Source(f.family, current, Active),
            if same then now.(media := f.media) else FirstRevision(s, f),
            if same then t.drawn else t.drawn + 1)
  }

  function Observe(t: Tables, l: Id, x: Location, source: Source, revision: Revision, drawn: nat): Tables {
    t.(locations := t.locations[l := x],
       sources := t.sources[x.source := source],
       revisions := t.revisions[source.current := revision],
       drawn := drawn)
  }

  function FirstRevision(s: Id, f: Facts): Revision {
    Revision(s, f.size, f.mtime, Some(f.fingerprint), f.media)
  }

  // Five fresh ids, drawn in this order: Source, revision, Location, Asset, origin.
  function Insert(t: Tables, root: Id, c: Candidate): Tables {
    var f, d := c.facts, t.drawn;
    t.(sources := t.sources[d := Source(f.family, d + 1, Active)],
       revisions := t.revisions[d + 1 := FirstRevision(d, f)],
       locations := t.locations[d + 2 := Location(root, d, c.path, f.display, f.fileId, c.State(), Some(f.size), f.mtime)],
       assets := t.assets[d + 3 := Asset(None, Unreviewed, None, [], [], 0)],
       origins := t.origins[d + 4 := Origin(d + 3, d)],
       drawn := d + 5)
  }

  ghost function One(t: Tables, root: Id, c: Candidate, gone: Path -> bool): Tables
    requires Linked(t)
  {
    match Existing(t.locations, root, c.path)
    case Some(l) => Refresh(t, l, c)
    case None =>
      match Relocated(t, root, c, gone)
      case Some(l) => Refresh(Relocate(t, l, c), l, c)
      case None => Insert(t, root, c)
  }

  /** Each row update keeps the catalogue consistent and every identity link. */

  lemma PutHome(m: map<Id, Location>, l: Id, x: Location, sources: set<Id>)
    requires AllHoused(m, sources)
    requires l in m ==> m[l].source == x.source
    ensures AllHoused(m[l := x], sources + {x.source})
    ensures x.source in sources ==> AllHoused(m[l := x], sources)
  {
    forall s | s in sources + {x.source} ensures Housed(m[l := x], s) {
      if s == x.source {
        assert m[l := x][l].source == s;
      } else {
        assert Housed(m, s);
        var k :| k in m && m[k].source == s;
        assert m[l := x][k].source == s;
      }
    }
  }

  // Rewriting one Location row in place, or adding one at a free path for a new Source.
  lemma PutLocation(m: map<Id, Location>, l: Id, x: Location, roots: set<Id>, sources: set<Id>)
    requires Placed(m, roots, sources) && OneHome(m) && OnePath(m)
    requires x.root in roots
    requires if l in m then m[l].root == x.root && m[l].source == x.source else x.source !in sources
    requires forall k | k in m && k != l && m[k].root == x.root :: m[k].path != x.path
    ensures l in m ==> Placed(m[l := x], roots, sources)
    ensures Placed(m[l := x], roots, sources + {x.source})
    ensures OneHome(m[l := x]) && OnePath(m[l := x]) && KeepsLocations(m, m[l := x])
  {
  }

  lemma KeysKept<V>(m: map<Id, V>, k: Id, v: V)
    requires k in m
    ensures m[k := v].Keys == m.Keys
  {
  }

  lemma RelocateKeeps(t: Tables, l: Id, c: Candidate)
    requires Consistent(t) && l in t.locations
    requires Existing(t.locations, t.locations[l].root, c.path).None?
    ensures Consistent(Relocate(t, l, c)) && KeepsIdentity(t, Relocate(t, l, c))
  {
    var x := Relocate(t, l, c).locations[l];
    PutHome(t.locations, l, x, t.sources.Keys);
    KeysKept(t.locations, l, x);
    FreePath(t, x.root, c.path);
    PutLocation(t.locations, l, x, t.roots.Keys, t.sources.Keys);
  }

  lemma RefreshOwned(sources: map<Id, Source>, revisions: map<Id, Revision>, s: Id, x: Source, y: Revision)
    requires Owned(sources, revisions) && s in sources && y.source == s
    requires x.current in revisions ==>
      && sources[s].current == x.current && revisions[x.current].source == s
      && y.size == revisions[x.current].size && y.fingerprint == revisions[x.current].fingerprint
    ensures Owned(sources[s := x], revisions[x.current := y])
    ensures KeepsRevisions(revisions, revisions[x.current := y])
  {
  }

  lemma ObserveDrawn(t: Tables, l: Id, x: Location, source: Source, revision: Revision, drawn: nat)
    requires Drawn(t) && l in t.locations && x.source in t.sources && drawn >= t.drawn && source.current < drawn
    ensures Drawn(Observe(t, l, x, source, revision, drawn))
  {
  }

  lemma ObserveKeeps(t: Tables, l: Id, x: Location, source: Source, revision: Revision, drawn: nat)
    requires Consistent(t) && l in t.locations && drawn >= t.drawn && source.current < drawn
    requires x.root == t.locations[l].root && x.source == t.locations[l].source && x.path == t.locations[l].path
    requires revision.source == x.source
    requires source.current in t.revisions ==>
      && t.sources[x.source].current == source.current
      && revision.size == t.revisions[source.current].size
      && revision.fingerprint == t.revisions[source.current].fingerprint
    ensures Consistent(Observe(t, l, x, source, revision, drawn))
    ensures KeepsIdentity(t, Observe(t, l, x, source, revision, drawn))
  {
    hide OneHome, AllHoused, KeepsRevisions, KeepsLocations, Attributed, OneOrigin, AllOriginated, Filed, Drawn;
    ObserveDrawn(t, l, x, source, revision, drawn);
    PutHome(t.locations, l, x, t.sources.Keys);
    PutLocation(t.locations, l, x, t.roots.Keys, t.sources.Keys);
    RefreshOwned(t.sources, t.revisions, x.source, source, revision);
    KeysKept(t.locations, l, x);
    KeysKept(t.sources, x.source, source);
  }

  lemma RefreshKeeps(t: Tables, l: Id, c: Candidate)
    requires Consistent(t) && l in t.locations
    ensures Consistent(Refresh(t, l, c)) && KeepsIdentity(t, Refresh(t, l, c))
  {
    var r := Refresh(t, l, c);
    var source := r.sources[t.locations[l].source];
    ObserveKeeps(t, l, r.locations[l], source, r.revisions[source.current], r.drawn);
  }

  lemma PutOrigin(m: map<Id, Origin>, o: Id, x: Origin, sources: set<Id>, assets: set<Id>)
    requires Attributed(m, assets, sources) && OneOrigin(m) && AllOriginated(m, sources, assets)
    requires o !in m && x.source !in sources && x.asset !in assets
    ensures Attributed(m[o := x], assets + {x.asset}, sources + {x.source}) && OneOrigin(m[o := x])
    ensures AllOriginated(m[o := x], sources + {x.source}, assets + {x.asset})
    ensures KeepsOrigins(m, m[o := x])
  {
    var n := m[o := x];
    assert n[o] == x;
    forall s | s in sources + {x.source} ensures Depicted(n, s) {
      if s != x.source {
        assert Depicted(m, s);
        var k :| k in m && m[k].source == s;
        assert n[k].source == s;
      }
    }
    forall a | a in assets + {x.asset} ensures Curated(n, a) {
      if a != x.asset {
        assert Curated(m, a);
        var k :| k in m && m[k].asset == a;
        assert n[k].asset == a;
      }
    }
  }

  lemma NewSource(sources: map<Id, Source>, revisions: map<Id, Revision>, s: Id, x: Source, y: Revision)
    requires Owned(sources, revisions) && s !in sources && x.current !in revisions && y.source == s
    ensures Owned(sources[s := x], revisions[x.current := y])
    ensures KeepsRevisions(revisions, revisions[x.current := y])
  {
  }

  lemma KeysGrown<V>(m: map<Id, V>, k: Id, v: V)
    ensures m[k := v].Keys == m.Keys + {k}
  {
  }

  lemma InsertsSource(t: Tables, root: Id, c: Candidate)
    requires Drawn(t) && Owned(t.sources, t.revisions)
    ensures var r := Insert(t, root, c);
      && Owned(r.sources, r.revisions) && KeepsRevisions(t.revisions, r.revisions)
      && r.sources.Keys == t.sources.Keys + {t.drawn} && r.assets.Keys == t.assets.Keys + {t.drawn + 3}
  {
    var r, d := Insert(t, root, c), t.drawn;
    NewSource(t.sources, t.revisions, d, r.sources[d], r.revisions[d + 1]);
    KeysGrown(t.sources, d, r.sources[d]);
    KeysGrown(t.assets, d + 3, r.assets[d + 3]);
  }

  lemma InsertsLocation(t: Tables, root: Id, c: Candidate)
    requires Drawn(t) && Placed(t.locations, t.roots.Keys, t.sources.Keys) && root in t.roots
    requires OneHome(t.locations) && OnePath(t.locations) && AllHoused(t.locations, t.sources.Keys)
    requires Existing(t.locations, root, c.path).None?
    ensures var r, sources := Insert(t, root, c), t.sources.Keys + {t.drawn};
      && Placed(r.locations, t.roots.Keys, sources) && OneHome(r.locations) && OnePath(r.locations)
      && AllHoused(r.locations, sources) && KeepsLocations(t.locations, r.locations)
  {
    var x, l := Insert(t, root, c).locations[t.drawn + 2], t.drawn + 2;
    FreePath(t, root, c.path);
    PutHome(t.locations, l, x, t.sources.Keys);
    PutLocation(t.locations, l, x, t.roots.Keys, t.sources.Keys);
  }

  lemma InsertsOrigin(t: Tables, root: Id, c: Candidate)
    requires Drawn(t) && Attributed(t.origins, t.assets.Keys, t.sources.Keys) && OneOrigin(t.origins)
    requires AllOriginated(t.origins, t.sources.Keys, t.assets.Keys)
    ensures var r, sources, assets := Insert(t, root, c), t.sources.Keys + {t.drawn}, t.assets.Keys + {t.drawn + 3};
      && Attributed(r.origins, assets, sources) && OneOrigin(r.origins) && AllOriginated(r.origins, sources, assets)
      && KeepsOrigins(t.origins, r.origins)
  {
    PutOrigin(t.origins, t.drawn + 4, Origin(t.drawn + 3, t.drawn), t.sources.Keys, t.assets.Keys);
  }

  lemma InsertLinks(t: Tables, root: Id, c: Candidate)
    requires Consistent(t) && root in t.roots
    requires Existing(t.locations, root, c.path).None?
    ensures Linked(Insert(t, root, c)) && Exclusive(Insert(t, root, c)) && Inhabited(Insert(t, root, c))
    ensures KeepsIdentity(t, Insert(t, root, c))
  {
    InsertsSource(t, root, c);
    InsertsLocation(t, root, c);
    InsertsOrigin(t, root, c);
  }

  lemma FreePath(t: Tables, root: Id, path: Path)
    requires Existing(t.locations, root, path).None?
    ensures forall k | k in t.locations && t.locations[k].root == root :: t.locations[k].path != path
  {
    forall k | k in t.locations && t.locations[k].root == root ensures t.locations[k].path != path {
      assert !At(t.locations, k, root, path);
    }
  }

  lemma InsertKeeps(t: Tables, root: Id, c: Candidate)
    requires Consistent(t) && root in t.roots
    requires Existing(t.locations, root, c.path).None?
    ensures Consistent(Insert(t, root, c)) && KeepsIdentity(t, Insert(t, root, c))
  {
    hide Placed, OneHome, OnePath, AllHoused, Owned, KeepsRevisions, KeepsLocations, Attributed, OneOrigin, AllOriginated, Filed;
    InsertLinks(t, root, c);
    assert Drawn(Insert(t, root, c));
  }

  lemma KeepsIdentityTransitive(a: Tables, b: Tables, c: Tables)
    requires KeepsIdentity(a, b) && KeepsIdentity(b, c)
    ensures KeepsIdentity(a, c)
  {
  }

  lemma OneKeeps(t: Tables, root: Id, c: Candidate, gone: Path -> bool)
    requires Consistent(t) && root in t.roots
    ensures Consistent(One(t, root, c, gone)) && KeepsIdentity(t, One(t, root, c, gone))
  {
    match Existing(t.locations, root, c.path)
    case Some(l) => RefreshKeeps(t, l, c);
    case None =>
      match Relocated(t, root, c, gone)
      case Some(l) =>
        RelocateKeeps(t, l, c);
        RefreshKeeps(Relocate(t, l, c), l, c);
        KeepsIdentityTransitive(t, Relocate(t, l, c), One(t, root, c, gone));
      case None => InsertKeeps(t, root, c);
  }
}
