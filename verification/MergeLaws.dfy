/**
 What merging a candidate writes, said of the rows themselves, and what follows
 for files that are found again.
 */
module MergeLaws {
  import opened Wrappers
  import opened Tables
  import opened Reconcile
  import opened ScanOutcome

  /** The current revision. */

  // The revision that was current still is, unless the content is new; then a
  // revision drawn for it has everything the file was seen with.
  ghost predicate Revises(t: Tables, r: Tables, l: Id, c: Candidate)
    requires Linked(t) && Linked(r) && l in r.locations
  {
    var now, current := CurrentRevision(r, l), r.sources[r.locations[l].source].current;
    if l in t.locations && CurrentRevision(t, l).fingerprint == Some(c.facts.fingerprint)
    then
      var was := CurrentRevision(t, l);
      && current == t.sources[t.locations[l].source].current
      && now.size == was.size && now.mtime == was.mtime && now.fingerprint == was.fingerprint && now.media == c.facts.media
    else
      && t.drawn <= current < r.drawn && current !in t.revisions
      && now.size == c.facts.size && now.mtime == c.facts.mtime
      && now.fingerprint == Some(c.facts.fingerprint) && now.media == c.facts.media
  }

  // A revision that is current nowhere keeps its row.
  ghost predicate OldRevisionsStay(t: Tables, r: Tables, l: Id)
    requires Linked(r) && l in r.locations
  {
    forall k <- t.revisions | k != r.sources[r.locations[l].source].current :: k in r.revisions && r.revisions[k] == t.revisions[k]
  }

  lemma RefreshRevises(t: Tables, l: Id, c: Candidate)
    requires Consistent(t) && l in t.locations && Linked(Refresh(t, l, c))
    ensures Revises(t, Refresh(t, l, c), l, c) && OldRevisionsStay(t, Refresh(t, l, c), l)
  {
    hide Exclusive, Inhabited;
  }

  // Moving the row first does not matter.
  lemma MoveRevises(t: Tables, l: Id, c: Candidate)
    requires Consistent(t) && l in t.locations && Consistent(Relocate(t, l, c)) && Linked(Refresh(Relocate(t, l, c), l, c))
    ensures var r := Refresh(Relocate(t, l, c), l, c); Revises(t, r, l, c) && OldRevisionsStay(t, r, l)
  {
    hide Exclusive, Inhabited;
    RefreshRevises(Relocate(t, l, c), l, c);
  }

  lemma InsertRevises(t: Tables, root: Id, c: Candidate)
    requires Consistent(t) && Linked(Insert(t, root, c))
    ensures var l := t.drawn + 2;
      l in Insert(t, root, c).locations && Revises(t, Insert(t, root, c), l, c) && OldRevisionsStay(t, Insert(t, root, c), l)
  {
    hide Exclusive, Inhabited;
  }

  lemma InsertThere(t: Tables, root: Id, c: Candidate)
    ensures At(Insert(t, root, c).locations, t.drawn + 2, root, c.path)
  {
  }

  lemma OneRevises(t: Tables, root: Id, c: Candidate, gone: Path -> bool, l: Id)
    requires Consistent(t) && root in t.roots && Consistent(One(t, root, c, gone))
    requires At(One(t, root, c, gone).locations, l, root, c.path)
    ensures Revises(t, One(t, root, c, gone), l, c) && OldRevisionsStay(t, One(t, root, c, gone), l)
  {
    hide Refresh, Insert, Revises, OldRevisionsStay, MatchedAt, AllHoused, AllOriginated, OneOrigin, Owned, Attributed, Filed, Drawn;
    var r := One(t, root, c, gone);
    match Existing(t.locations, root, c.path)
    case Some(k) =>
      RefreshTouches(t, k, c, k);
      OneThere(r, root, c.path, k, l);
      RefreshRevises(t, k, c);
    case None =>
      match Relocated(t, root, c, gone)
      case Some(k) =>
        var m := Relocate(t, k, c);
        RelocateKeeps(t, k, c);
        RefreshTouches(m, k, c, k);
        OneThere(r, root, c.path, k, l);
        MoveRevises(t, k, c);
      case None =>
        InsertThere(t, root, c);
        OneThere(r, root, c.path, t.drawn + 2, l);
        InsertRevises(t, root, c);
  }

  lemma OneThere(t: Tables, root: Id, path: Path, k: Id, l: Id)
    requires Exclusive(t) && At(t.locations, k, root, path) && At(t.locations, l, root, path)
    ensures k == l
  {
  }

  /** A new file. */

  // One row more in each of five tables, all with new ids; the Asset is as no
  // editor has touched it yet.
  ghost predicate Arrived(t: Tables, r: Tables, l: Id, s: Id, v: Id, a: Id, o: Id) {
    && r.locations.Keys == t.locations.Keys + {l} && l !in t.locations && r.locations[l].source == s
    && r.sources.Keys == t.sources.Keys + {s} && s !in t.sources && r.sources[s].current == v
    && r.revisions.Keys == t.revisions.Keys + {v} && v !in t.revisions && r.revisions[v].source == s
    && r.assets == t.assets[a := Asset(None, Unreviewed, None, [], [], 0)] && a !in t.assets
    && r.origins == t.origins[o := Origin(a, s)] && o !in t.origins
  }

  lemma NewFile(t: Tables, root: Id, c: Candidate, gone: Path -> bool)
    requires Consistent(t) && root in t.roots
    requires (forall l :: !At(t.locations, l, root, c.path)) && forall l :: !Renamed(t, l, root, c, gone)
    ensures exists l, s, v, a, o :: Arrived(t, One(t, root, c, gone), l, s, v, a, o) && At(One(t, root, c, gone).locations, l, root, c.path)
  {
    hide Linked, Exclusive, Inhabited;
    var d, r := t.drawn, One(t, root, c, gone);
    assert r == Insert(t, root, c);
    KeysGrown(t.locations, d + 2, r.locations[d + 2]);
    KeysGrown(t.sources, d, r.sources[d]);
    KeysGrown(t.revisions, d + 1, r.revisions[d + 1]);
    assert Arrived(t, r, d + 2, d, d + 1, d + 3, d + 4);
  }

  /** Sizes. */

  // Equal content has one size.
  type Sizes = string -> nat

  ghost predicate Measured(c: Candidate, sizes: Sizes) { sizes(c.facts.fingerprint) == c.facts.size }

  // Every revision has the size of its content.
  ghost predicate Sized(t: Tables, sizes: Sizes) {
    forall k <- t.revisions | t.revisions[k].fingerprint.Some? :: t.revisions[k].size == sizes(t.revisions[k].fingerprint.value)
  }

  lemma RefreshSized(t: Tables, l: Id, c: Candidate, sizes: Sizes)
    requires Linked(t) && l in t.locations && Sized(t, sizes) && Measured(c, sizes)
    ensures Sized(Refresh(t, l, c), sizes)
  {
  }

  lemma OneSized(t: Tables, root: Id, c: Candidate, gone: Path -> bool, sizes: Sizes)
    requires Consistent(t) && root in t.roots && Sized(t, sizes) && Measured(c, sizes)
    ensures Sized(One(t, root, c, gone), sizes)
  {
    hide Refresh;
    match Existing(t.locations, root, c.path)
    case Some(l) => RefreshSized(t, l, c, sizes);
    case None =>
      match Relocated(t, root, c, gone)
      case Some(l) =>
        RelocateKeeps(t, l, c);
        RefreshSized(Relocate(t, l, c), l, c, sizes);
      case None =>
  }

  lemma {:induction false} AllSized(t: Tables, root: Id, cs: seq<Candidate>, gone: Path -> bool, sizes: Sizes)
    requires Consistent(t) && root in t.roots && Sized(t, sizes) && forall c <- cs :: Measured(c, sizes)
    ensures Sized(All(t, root, cs, gone), sizes)
    decreases |cs|
  {
    hide Consistent, KeepsRevisions, KeepsLocations, KeepsOrigins, Sized, Measured;
    if cs != [] {
      AllSized(t, root, cs[..|cs| - 1], gone, sizes);
      OneSized(All(t, root, cs[..|cs| - 1], gone), root, cs[|cs| - 1], gone, sizes);
    }
  }

  lemma RestSized(t: Tables, root: Id, seen: set<Path>, notes: map<Path, LocationState>, sealed: set<Path>, sizes: Sizes)
    requires Sized(t, sizes)
    ensures Sized(MarkUnseen(t, root, seen, notes, sealed), sizes)
  {
  }

  /** A file that moved. */

  // The file id of a file with one link is nobody else's in this Root.
  ghost predicate Unshared(t: Tables, l: Id, root: Id, fileId: Option<string>) {
    forall k <- t.locations | t.locations[k].root == root && t.locations[k].fileId == fileId :: k == l
  }

  lemma AllOfOne(t: Tables, root: Id, c: Candidate, gone: Path -> bool)
    requires Consistent(t) && root in t.roots
    ensures All(t, root, [c], gone) == One(t, root, c, gone) && Consistent(One(t, root, c, gone))
  {
    hide Consistent, One;
    OneKeeps(t, root, c, gone);
    AllSnoc(t, root, [], c, gone);
    assert [] + [c] == [c];
  }

  // A row is moved exactly on this evidence: no row is at the new path; it is the
  // only one at another path of the Root with the file id of a file with one link;
  // size and fingerprint are those of its current revision; and nothing is left
  // where it was.
  lemma MovedExactly(t: Tables, root: Id, c: Candidate, gone: Path -> bool, l: Id)
    requires Consistent(t) && root in t.roots && l in t.locations
    ensures var r, was := All(t, root, [c], gone), t.locations[l];
      && l in r.locations
      && (r.locations[l].path != was.path <==>
            && (forall k <- t.locations :: t.locations[k].root != root || t.locations[k].path != c.path)
            && c.facts.fileId.Some? && c.facts.links == Some(1)
            && was.root == root && was.fileId == c.facts.fileId
            && (forall k <- t.locations | k != l && t.locations[k].root == root :: t.locations[k].fileId != c.facts.fileId)
            && t.revisions[t.sources[was.source].current].size == c.facts.size
            && t.revisions[t.sources[was.source].current].fingerprint == Some(c.facts.fingerprint)
            && gone(was.path))
      && (r.locations[l].path != was.path ==> r.locations[l].path == c.path)
  {
    hide All, KeepsIdentity, Linked, Exclusive, Inhabited, Drawn;
    AllOfOne(t, root, c, gone);
    OneKeeps(t, root, c, gone);
    MovesOnlyWhenRenamed(t, root, c, gone, l);
    MovedThere(t, root, c, gone, l);
    hide One;
    assert forall k <- t.locations :: At(t.locations, k, root, c.path) <==> t.locations[k].root == root && t.locations[k].path == c.path;
    assert forall k <- t.locations :: Twin(t, k, root, c) <==>
      t.locations[k].root == root && t.locations[k].fileId == c.facts.fileId && t.locations[k].path != c.path;
  }

  lemma MovedThere(t: Tables, root: Id, c: Candidate, gone: Path -> bool, l: Id)
    requires Consistent(t) && root in t.roots && l in t.locations
    requires Linked(One(t, root, c, gone)) && KeepsIdentity(t, One(t, root, c, gone))
    ensures l in One(t, root, c, gone).locations
    ensures One(t, root, c, gone).locations[l].path != t.locations[l].path ==> One(t, root, c, gone).locations[l].path == c.path
  {
    hide Consistent, Linked, One;
    OneTouches(t, root, c, gone, l);
  }

  lemma MovedEvidence(t: Tables, root: Id, c: Candidate, path: Path, gone: Path -> bool, sizes: Sizes, l: Id)
    requires Linked(t) && Sized(t, sizes) && Measured(c, sizes)
    requires MatchedAt(t, l, root, c) && Unshared(t, l, root, c.facts.fileId)
    requires c.facts.fileId.Some? && c.facts.links == Some(1) && gone(c.path) && path != c.path
    ensures Renamed(t, l, root, Candidate(path, c.facts), gone)
  {
    assert CurrentRevision(t, l).size == c.facts.size;
    assert Twin(t, l, root, Candidate(path, c.facts));
  }

  // A file was scanned, and is found again, the same, at a path that is free,
  // while nothing is left where it was: it keeps its Location, its Source with
  // the current revision, and its Asset, and no row is added.
  lemma FoundAgain(t: Tables, root: Id, c: Candidate, path: Path, gone: Path -> bool, sizes: Sizes, l: Id)
    requires Consistent(t) && root in t.roots && Sized(t, sizes) && Measured(c, sizes)
    requires MatchedAt(t, l, root, c) && Unshared(t, l, root, c.facts.fileId)
    requires c.facts.fileId.Some? && c.facts.links == Some(1) && gone(c.path) && path != c.path
    requires forall k :: !At(t.locations, k, root, path)
    ensures var r := All(t, root, [Candidate(path, c.facts)], gone);
      && MatchedAt(r, l, root, Candidate(path, c.facts))
      && r.locations[l].source == t.locations[l].source
      && r.sources[r.locations[l].source].current == t.sources[t.locations[l].source].current
      && r.assets == t.assets && r.origins == t.origins
      && r.locations.Keys == t.locations.Keys && r.sources.Keys == t.sources.Keys && r.revisions.Keys == t.revisions.Keys
  {
    hide Linked, Exclusive, Inhabited, Drawn, MatchedAt, Renamed, All, One, Unshared, Sized, Measured;
    var d := Candidate(path, c.facts);
    AllOfOne(t, root, d, gone);
    MovedEvidence(t, root, c, path, gone, sizes, l);
    RenameKeepsRow(t, root, d, gone, l);
  }

  // Scanned once, whatever was there before and whatever else was found, then moved.
  lemma ScannedThenMoved(t: Tables, root: Id, cs: seq<Candidate>, c: Candidate, path: Path, gone: Path -> bool, later: Path -> bool,
                         sizes: Sizes)
    requires Consistent(t) && root in t.roots && Sized(t, sizes) && forall x <- cs :: Measured(x, sizes)
    requires c in cs && DistinctPaths(cs) && forall x <- cs :: !gone(x.path)
    requires c.facts.fileId.Some? && c.facts.links == Some(1) && later(c.path) && path != c.path
    requires forall k :: !At(All(t, root, cs, gone).locations, k, root, path)
    requires forall l | At(All(t, root, cs, gone).locations, l, root, c.path) :: Unshared(All(t, root, cs, gone), l, root, c.facts.fileId)
    ensures var one := All(t, root, cs, gone);
      var two := All(one, root, [Candidate(path, c.facts)], later);
      exists l ::
        && MatchedAt(one, l, root, c) && MatchedAt(two, l, root, Candidate(path, c.facts))
        && two.locations[l].source == one.locations[l].source
        && two.sources[two.locations[l].source].current == one.sources[one.locations[l].source].current
        && two.assets == one.assets && two.origins == one.origins && two.locations.Keys == one.locations.Keys
  {
    var one := All(t, root, cs, gone);
    AllMatch(t, root, cs, gone);
    AllSized(t, root, cs, gone, sizes);
    hide Consistent, MatchedAt, Sized, Measured, All, Unshared;
    assert Matched(one, root, c);
    var l :| MatchedAt(one, l, root, c);
    assert At(one.locations, l, root, c.path) by { MatchedThere(one, l, root, c); }
    FoundAgain(one, root, c, path, later, sizes, l);
  }

  lemma MatchedThere(t: Tables, l: Id, root: Id, c: Candidate)
    requires Linked(t) && MatchedAt(t, l, root, c)
    ensures At(t.locations, l, root, c.path)
  {
  }
}
