/**
 Whole scans: merging every candidate of a walk, giving each unseen Location its
 state, and what a completed, cancelled or failed scan leaves behind.
 */
module ScanOutcome {
  import opened Wrappers
  import opened Tables
  import opened Reconcile
  import opened Sequences

  /** Merging a list of candidates, first to last. */

  ghost function All(t: Tables, root: Id, cs: seq<Candidate>, gone: Path -> bool): (r: Tables)
    requires Consistent(t) && root in t.roots
    ensures Consistent(r) && KeepsIdentity(t, r)
    decreases |cs|
  {
    if cs == [] then t else
      var before := All(t, root, cs[..|cs| - 1], gone);
      var c := cs[|cs| - 1];
      OneKeeps(before, root, c, gone);
      KeepsIdentityTransitive(t, before, One(before, root, c, gone));
      One(before, root, c, gone)
  }

  lemma AllSnoc(t: Tables, root: Id, cs: seq<Candidate>, c: Candidate, gone: Path -> bool)
    requires Consistent(t) && root in t.roots
    ensures All(t, root, cs + [c], gone) == One(All(t, root, cs, gone), root, c, gone)
  {
    assert (cs + [c])[..|cs + [c]| - 1] == cs;
  }

  // Where batches are cut does not matter: merging two lists one after the
  // other is merging their concatenation.
  lemma {:induction false} BatchesAgree(t: Tables, root: Id, a: seq<Candidate>, b: seq<Candidate>, gone: Path -> bool)
    requires Consistent(t) && root in t.roots
    ensures All(t, root, a + b, gone) == All(All(t, root, a, gone), root, b, gone)
    decreases |b|
  {
    if b == [] {
      assert a + b == a;
    } else {
      var front, last := b[..|b| - 1], b[|b| - 1];
      var merged := All(t, root, a, gone);
      BatchesAgree(t, root, a, front, gone);
      AllSnoc(t, root, a + front, last, gone);
      AllSnoc(merged, root, front, last, gone);
      AppendLast(a, b);
    }
  }

  /** One candidate touches one row. */

  // Location `l` carries everything the candidate observed, its Source is
  // active, and the Source's current revision has the candidate's content.
  ghost predicate MatchedAt(t: Tables, l: Id, root: Id, c: Candidate)
    requires Linked(t)
  {
    && At(t.locations, l, root, c.path)
    && t.locations[l].state == c.State()
    && t.locations[l].size == Some(c.facts.size)
    && t.locations[l].mtime == c.facts.mtime
    && t.locations[l].fileId == c.facts.fileId
    && t.locations[l].display == c.facts.display
    && t.sources[t.locations[l].source].lineage == Active
    && t.sources[t.locations[l].source].family == c.facts.family
    && CurrentRevision(t, l).fingerprint == Some(c.facts.fingerprint)
    && CurrentRevision(t, l).media == c.facts.media
  }

  ghost predicate Matched(t: Tables, root: Id, c: Candidate)
    requires Linked(t)
  {
    exists l :: MatchedAt(t, l, root, c)
  }

  // The Location, its Source and its current revision are the same rows in both.
  ghost predicate Undisturbed(t: Tables, r: Tables, l: Id)
    requires Linked(t) && Linked(r)
  {
    && l in t.locations && l in r.locations
    && r.locations[l] == t.locations[l]
    && r.sources[r.locations[l].source] == t.sources[t.locations[l].source]
    && CurrentRevision(r, l) == CurrentRevision(t, l)
  }

  lemma RefreshTouches(t: Tables, l: Id, c: Candidate, k: Id)
    requires Consistent(t) && l in t.locations && k in t.locations
    requires t.locations[l].path == c.path
    requires Linked(Refresh(t, l, c))
    ensures if k == l then MatchedAt(Refresh(t, l, c), l, t.locations[l].root, c) else Undisturbed(t, Refresh(t, l, c), k)
  {
    if k != l {
      var a, b := t.locations[l].source, t.locations[k].source;
      assert a != b;
      assert t.revisions[t.sources[a].current].source != t.revisions[t.sources[b].current].source;
    }
  }

  lemma InsertTouches(t: Tables, root: Id, c: Candidate, l: Id)
    requires Drawn(t) && Linked(t) && Linked(Insert(t, root, c)) && (l in t.locations || l == t.drawn + 2)
    ensures l !in t.locations ==> MatchedAt(Insert(t, root, c), l, root, c)
    ensures l in t.locations ==> Undisturbed(t, Insert(t, root, c), l)
  {
  }

  lemma RowIds(t: Tables, root: Id, c: Candidate, l: Id)
    requires Linked(t)
    ensures Insert(t, root, c).locations.Keys == t.locations.Keys + {t.drawn + 2}
    ensures l in t.locations ==> Refresh(t, l, c).locations.Keys == t.locations.Keys
    ensures l in t.locations ==> Relocate(t, l, c).locations.Keys == t.locations.Keys
  {
  }

  // Every row after one candidate is either the candidate's own row, which
  // before was at its path or at a path with nothing left, or it is untouched.
  lemma OneTouches(t: Tables, root: Id, c: Candidate, gone: Path -> bool, l: Id)
    requires Consistent(t) && root in t.roots && Linked(One(t, root, c, gone))
    requires l in One(t, root, c, gone).locations
    ensures
      || (&& MatchedAt(One(t, root, c, gone), l, root, c)
          && (l in t.locations ==> t.locations[l].root == root && (t.locations[l].path == c.path || gone(t.locations[l].path))))
      || Undisturbed(t, One(t, root, c, gone), l)
  {
    hide OneOrigin, AllHoused, AllOriginated, Attributed, Filed, Drawn, Refresh, Insert;
    match Existing(t.locations, root, c.path)
    case Some(k) =>
      RowIds(t, root, c, k);
      RefreshTouches(t, k, c, l);
    case None =>
      match Relocated(t, root, c, gone)
      case Some(k) =>
        RelocateKeeps(t, k, c);
        RowIds(t, root, c, k);
        RowIds(Relocate(t, k, c), root, c, k);
        RefreshTouches(Relocate(t, k, c), k, c, l);
      case None =>
        RowIds(t, root, c, l);
        InsertTouches(t, root, c, l);
  }

  // The candidate's own row exists afterwards.
  lemma OneMatches(t: Tables, root: Id, c: Candidate, gone: Path -> bool)
    requires Consistent(t) && root in t.roots && Linked(One(t, root, c, gone))
    ensures Matched(One(t, root, c, gone), root, c)
  {
    hide OneOrigin, AllHoused, AllOriginated, Attributed, Filed, Refresh, MatchedAt, Insert;
    match Existing(t.locations, root, c.path)
    case Some(k) => RefreshTouches(t, k, c, k);
    case None =>
      match Relocated(t, root, c, gone)
      case Some(k) =>
        RelocateKeeps(t, k, c);
        RefreshTouches(Relocate(t, k, c), k, c, k);
      case None => InsertTouches(t, root, c, t.drawn + 2);
  }

  /** A list of candidates at distinct paths. */

  ghost predicate DistinctPaths(cs: seq<Candidate>) {
    forall i, j | 0 <= i < j < |cs| :: cs[i].path != cs[j].path
  }

  ghost function PathsOf(cs: seq<Candidate>): set<Path> {
    set c | c in cs :: c.path
  }

  // A merged candidate stays matched while later ones are merged, because the
  // file tree still holds it and so nothing can be renamed away from its path.
  lemma OneKeepsMatched(t: Tables, root: Id, c: Candidate, later: Candidate, gone: Path -> bool)
    requires Consistent(t) && root in t.roots && Linked(One(t, root, later, gone))
    requires KeepsIdentity(t, One(t, root, later, gone))
    requires Matched(t, root, c) && later.path != c.path && !gone(c.path)
    ensures Matched(One(t, root, later, gone), root, c)
  {
    var l :| MatchedAt(t, l, root, c);
    OneTouches(t, root, later, gone, l);
    assert MatchedAt(One(t, root, later, gone), l, root, c);
  }

  lemma {:induction false} AllMatch(t: Tables, root: Id, cs: seq<Candidate>, gone: Path -> bool)
    requires Consistent(t) && root in t.roots
    requires DistinctPaths(cs) && forall c <- cs :: !gone(c.path)
    ensures forall c <- cs :: Matched(All(t, root, cs, gone), root, c)
    decreases |cs|
  {
    hide KeepsRevisions, KeepsLocations, KeepsOrigins, MatchedAt, Drawn, Exclusive, Inhabited, Placed, Owned, Attributed, Filed;
    if cs != [] {
      var front, last := cs[..|cs| - 1], cs[|cs| - 1];
      var before := All(t, root, front, gone);
      AllMatch(t, root, front, gone);
      OneKeeps(before, root, last, gone);
      OneMatches(before, root, last, gone);
      forall c <- cs ensures Matched(All(t, root, cs, gone), root, c) {
        if c != last {
          assert c in front;
          OneKeepsMatched(before, root, c, last, gone);
        }
      }
    }
  }

  // A row that is not at a candidate's path of this Root is the row it was.
  lemma {:induction false} AllTouch(t: Tables, root: Id, cs: seq<Candidate>, gone: Path -> bool, l: Id)
    requires Consistent(t) && root in t.roots
    requires l in All(t, root, cs, gone).locations
    ensures
      || (All(t, root, cs, gone).locations[l].root == root && All(t, root, cs, gone).locations[l].path in PathsOf(cs))
      || Undisturbed(t, All(t, root, cs, gone), l)
    decreases |cs|
  {
    if cs != [] {
      var front, last := cs[..|cs| - 1], cs[|cs| - 1];
      var before := All(t, root, front, gone);
      OneKeeps(before, root, last, gone);
      OneTouches(before, root, last, gone, l);
      if Undisturbed(before, All(t, root, cs, gone), l) {
        AllTouch(t, root, front, gone, l);
        assert PathsOf(front) <= PathsOf(cs);
      } else {
        assert last in cs;
      }
    }
  }

  /** What no scan touches. */

  // Asset rows written by an editor, Collections and their members, Roots, jobs
  // and the Library name.
  ghost predicate KeepsCuration(a: Tables, b: Tables) {
    && (forall k <- a.assets :: k in b.assets && b.assets[k] == a.assets[k])
    && b.collections == a.collections && b.members == a.members
    && b.roots == a.roots && b.jobs == a.jobs && b.library == a.library
  }

  lemma RefreshKeepsCuration(t: Tables, l: Id, c: Candidate)
    requires Linked(t) && l in t.locations
    ensures KeepsCuration(t, Refresh(t, l, c)) && Refresh(t, l, c).revision == t.revision && Refresh(t, l, c).drawn >= t.drawn
  {
  }

  lemma OneKeepsCuration(t: Tables, root: Id, c: Candidate, gone: Path -> bool)
    requires Drawn(t) && Linked(t)
    ensures KeepsCuration(t, One(t, root, c, gone)) && One(t, root, c, gone).revision == t.revision
    ensures One(t, root, c, gone).drawn >= t.drawn
  {
    hide Refresh;
    match Existing(t.locations, root, c.path)
    case Some(l) => RefreshKeepsCuration(t, l, c);
    case None =>
      match Relocated(t, root, c, gone)
      case Some(l) => RefreshKeepsCuration(Relocate(t, l, c), l, c);
      case None =>
  }

  lemma {:induction false} AllKeepsCuration(t: Tables, root: Id, cs: seq<Candidate>, gone: Path -> bool)
    requires Consistent(t) && root in t.roots
    ensures KeepsCuration(t, All(t, root, cs, gone)) && All(t, root, cs, gone).revision == t.revision
    ensures All(t, root, cs, gone).drawn >= t.drawn
    decreases |cs|
  {
    if cs != [] {
      AllKeepsCuration(t, root, cs[..|cs| - 1], gone);
      OneKeepsCuration(All(t, root, cs[..|cs| - 1], gone), root, cs[|cs| - 1], gone);
    }
  }

  /** The Locations of the Root that the scan did not see. */

  ghost predicate Unseen(t: Tables, l: Id, root: Id, seen: set<Path>) {
    l in t.locations && t.locations[l].root == root && t.locations[l].path !in seen
  }

  ghost function UnseenIds(t: Tables, root: Id, seen: set<Path>): set<Id> {
    set l | l in t.locations && Unseen(t, l, root, seen)
  }

  // Some ancestor of the path, the Root itself and the path included, could not be read.
  predicate Sealed(path: Path, sealed: set<Path>) {
    exists k :: 0 <= k <= |path| && path[..k] in sealed
  }

  function UnseenState(path: Path, notes: map<Path, LocationState>, sealed: set<Path>): LocationState {
    if path in notes then notes[path]
    else if Sealed(path, sealed) then PermissionDenied
    else Missing
  }

  ghost function Restated(t: Tables, ids: set<Id>, notes: map<Path, LocationState>, sealed: set<Path>): map<Id, Location> {
    map l | l in t.locations ::
      if l in ids
      then t.locations[l].(state := UnseenState(t.locations[l].path, notes, sealed))
      else t.locations[l]
  }

  ghost predicate Reachable(locations: map<Id, Location>, s: Id) {
    exists l :: l in locations && locations[l].source == s && locations[l].state != Missing
  }

  ghost predicate HomeIn(t: Tables, s: Id, ids: set<Id>) {
    exists l :: l in ids && l in t.locations && t.locations[l].source == s
  }

  // The given Locations take their unseen state; a Source with one of them is
  // active while some Location of it is not missing.
  ghost function MarkIds(t: Tables, ids: set<Id>, notes: map<Path, LocationState>, sealed: set<Path>): Tables {
    var locations := Restated(t, ids, notes, sealed);
    t.(locations := locations,
       sources := map s | s in t.sources ::
         if HomeIn(t, s, ids)
         then t.sources[s].(lineage := if Reachable(locations, s) then Active else Lost)
         else t.sources[s])
  }

  ghost function MarkOne(t: Tables, l: Id, state: LocationState): Tables
    requires l in t.locations && t.locations[l].source in t.sources
  {
    var s := t.locations[l].source;
    var locations := t.locations[l := t.locations[l].(state := state)];
    t.(locations := locations,
       sources := t.sources[s := t.sources[s].(lineage := if Reachable(locations, s) then Active else Lost)])
  }

  // Marking one more Location is one update of its row, then one of its Source.
  lemma MarkStep(t: Tables, ids: set<Id>, l: Id, notes: map<Path, LocationState>, sealed: set<Path>)
    requires Placed(t.locations, t.roots.Keys, t.sources.Keys) && l in t.locations && l !in ids
    ensures var before := MarkIds(t, ids, notes, sealed);
      && l in before.locations && before.locations[l] == t.locations[l] && before.locations[l].source in before.sources
      && MarkIds(t, ids + {l}, notes, sealed) == MarkOne(before, l, UnseenState(t.locations[l].path, notes, sealed))
  {
    hide Reachable;
    var before, after, s := MarkIds(t, ids, notes, sealed), MarkIds(t, ids + {l}, notes, sealed), t.locations[l].source;
    var one := MarkOne(before, l, UnseenState(t.locations[l].path, notes, sealed));
    assert after.locations == one.locations;
    assert HomeIn(t, s, ids + {l});
    forall k <- t.sources | k != s ensures after.sources[k] == before.sources[k] {
      assert HomeIn(t, k, ids + {l}) <==> HomeIn(t, k, ids) by {
        if HomeIn(t, k, ids) { var x :| x in ids && x in t.locations && t.locations[x].source == k; assert x in ids + {l}; }
      }
      SameReach(before.locations, after.locations, k);
    }
    assert after.sources == one.sources;
  }

  lemma SameReach(a: map<Id, Location>, b: map<Id, Location>, s: Id)
    requires a.Keys == b.Keys
    requires forall l <- a :: b[l].source == a[l].source && (a[l].source == s ==> b[l] == a[l])
    ensures Reachable(a, s) <==> Reachable(b, s)
  {
    if Reachable(a, s) { var l :| l in a && a[l].source == s && a[l].state != Missing; assert b[l].state != Missing; }
    if Reachable(b, s) { var l :| l in b && b[l].source == s && b[l].state != Missing; assert a[l].state != Missing; }
  }

  ghost function MarkUnseen(t: Tables, root: Id, seen: set<Path>, notes: map<Path, LocationState>, sealed: set<Path>): Tables {
    Bump(MarkIds(t, UnseenIds(t, root, seen), notes, sealed))
  }

  // Two tables of Locations that differ only in what a stat call reported.
  ghost predicate SameShape(a: map<Id, Location>, b: map<Id, Location>) {
    && a.Keys == b.Keys
    && forall l <- a :: b[l].root == a[l].root && b[l].source == a[l].source && b[l].path == a[l].path
  }

  lemma SameShapeKeeps(a: map<Id, Location>, b: map<Id, Location>, roots: set<Id>, sources: set<Id>)
    requires SameShape(a, b)
    requires Placed(a, roots, sources) && OneHome(a) && OnePath(a) && AllHoused(a, sources)
    ensures Placed(b, roots, sources) && OneHome(b) && OnePath(b) && AllHoused(b, sources) && KeepsLocations(a, b)
  {
    forall s | s in sources ensures Housed(b, s) {
      assert Housed(a, s);
      var l :| l in a && a[l].source == s;
      assert b[l].source == s;
    }
  }

  lemma MarkUnseenKeeps(t: Tables, root: Id, seen: set<Path>, notes: map<Path, LocationState>, sealed: set<Path>)
    requires Consistent(t)
    ensures Consistent(MarkUnseen(t, root, seen, notes, sealed))
    ensures KeepsIdentity(t, MarkUnseen(t, root, seen, notes, sealed))
    ensures KeepsCuration(t, MarkUnseen(t, root, seen, notes, sealed))
  {
    hide Placed, OneHome, OnePath, AllHoused, KeepsLocations, Attributed, OneOrigin, AllOriginated, Filed;
    var r := MarkUnseen(t, root, seen, notes, sealed);
    SameShapeKeeps(t.locations, r.locations, t.roots.Keys, t.sources.Keys);
    assert r.sources.Keys == t.sources.Keys && r.locations.Keys == t.locations.Keys;
  }

  lemma MarkUnseenRows(t: Tables, root: Id, seen: set<Path>, notes: map<Path, LocationState>, sealed: set<Path>, l: Id)
    requires Consistent(t) && l in t.locations && Linked(MarkUnseen(t, root, seen, notes, sealed))
    ensures var r := MarkUnseen(t, root, seen, notes, sealed);
      if Unseen(t, l, root, seen)
      then
        && r.locations[l] == t.locations[l].(state := UnseenState(t.locations[l].path, notes, sealed))
        && (r.sources[t.locations[l].source].lineage == if r.locations[l].state == Missing then Lost else Active)
        && r.sources[t.locations[l].source].current == t.sources[t.locations[l].source].current
        && r.sources[t.locations[l].source].family == t.sources[t.locations[l].source].family
      else Undisturbed(t, r, l)
  {
  }

  // The state of its entry comes first, then an ancestor that could not be read.
  lemma UnseenRowState(t: Tables, root: Id, seen: set<Path>, notes: map<Path, LocationState>, sealed: set<Path>, l: Id)
    requires Consistent(t) && Unseen(t, l, root, seen) && Linked(MarkUnseen(t, root, seen, notes, sealed))
    ensures var p, state := t.locations[l].path, MarkUnseen(t, root, seen, notes, sealed).locations[l].state;
      && (p in notes ==> state == notes[p])
      && (p !in notes ==> state == if exists k :: 0 <= k <= |p| && p[..k] in sealed then PermissionDenied else Missing)
  {
    hide Consistent, Linked, MarkUnseen;
    MarkUnseenRows(t, root, seen, notes, sealed, l);
  }

  /** A completed scan. */

  // The catalogue after a scan that walked the whole Root: `cs` was accepted,
  // `notes` and `sealed` say which entries and directories could not be read.
  ghost function Scanned(t: Tables, root: Id, cs: seq<Candidate>, notes: map<Path, LocationState>,
                         sealed: set<Path>, gone: Path -> bool): Tables
    requires Consistent(t) && root in t.roots
  {
    MarkUnseen(All(t, root, cs, gone), root, PathsOf(cs), notes, sealed)
  }

  lemma ScannedKeeps(t: Tables, root: Id, cs: seq<Candidate>, notes: map<Path, LocationState>,
                     sealed: set<Path>, gone: Path -> bool)
    requires Consistent(t) && root in t.roots
    ensures Consistent(Scanned(t, root, cs, notes, sealed, gone))
    ensures KeepsIdentity(t, Scanned(t, root, cs, notes, sealed, gone))
    ensures KeepsCuration(t, Scanned(t, root, cs, notes, sealed, gone))
  {
    var merged := All(t, root, cs, gone);
    AllKeepsCuration(t, root, cs, gone);
    MarkUnseenKeeps(merged, root, PathsOf(cs), notes, sealed);
    KeepsIdentityTransitive(t, merged, Scanned(t, root, cs, notes, sealed, gone));
  }

  // Every candidate path has exactly one Location in the Root, and it matches.
  lemma ScannedCandidates(t: Tables, root: Id, cs: seq<Candidate>, notes: map<Path, LocationState>,
                          sealed: set<Path>, gone: Path -> bool, c: Candidate)
    requires Consistent(t) && root in t.roots
    requires DistinctPaths(cs) && (forall k <- cs :: !gone(k.path)) && c in cs
    requires Consistent(Scanned(t, root, cs, notes, sealed, gone))
    ensures var r := Scanned(t, root, cs, notes, sealed, gone);
      exists l :: MatchedAt(r, l, root, c) && forall k :: At(r.locations, k, root, c.path) ==> k == l
  {
    var merged := All(t, root, cs, gone);
    AllMatch(t, root, cs, gone);
    var l :| MatchedAt(merged, l, root, c);
    MarkUnseenRows(merged, root, PathsOf(cs), notes, sealed, l);
    assert MatchedAt(Scanned(t, root, cs, notes, sealed, gone), l, root, c);
  }

  // Every other Location of the Root is one that was there before, at the same
  // path, in its per-entry state, `permission_denied` below an unreadable
  // directory, or `missing`; its Source is lost exactly when it is missing.
  lemma ScannedUnseen(t: Tables, root: Id, cs: seq<Candidate>, notes: map<Path, LocationState>,
                      sealed: set<Path>, gone: Path -> bool, l: Id)
    requires Consistent(t) && root in t.roots
    requires Consistent(Scanned(t, root, cs, notes, sealed, gone))
    requires Unseen(Scanned(t, root, cs, notes, sealed, gone), l, root, PathsOf(cs))
    ensures var r := Scanned(t, root, cs, notes, sealed, gone);
      && l in t.locations
      && r.locations[l] == t.locations[l].(state := UnseenState(t.locations[l].path, notes, sealed))
      && (r.sources[r.locations[l].source].lineage == if r.locations[l].state == Missing then Lost else Active)
      && r.sources[r.locations[l].source].current == t.sources[t.locations[l].source].current
  {
    AllTouch(t, root, cs, gone, l);
    MarkUnseenRows(All(t, root, cs, gone), root, PathsOf(cs), notes, sealed, l);
  }

  // Locations of other Roots, their Sources and current revisions are untouched,
  // and none is added.
  lemma ScannedElsewhere(t: Tables, root: Id, cs: seq<Candidate>, notes: map<Path, LocationState>,
                         sealed: set<Path>, gone: Path -> bool, l: Id)
    requires Consistent(t) && root in t.roots
    requires Consistent(Scanned(t, root, cs, notes, sealed, gone))
    requires l in Scanned(t, root, cs, notes, sealed, gone).locations
    requires Scanned(t, root, cs, notes, sealed, gone).locations[l].root != root
    ensures Undisturbed(t, Scanned(t, root, cs, notes, sealed, gone), l)
  {
    AllTouch(t, root, cs, gone, l);
    MarkUnseenRows(All(t, root, cs, gone), root, PathsOf(cs), notes, sealed, l);
  }

  /** Scanning an unchanged tree again. */

  // The catalogue already says about the Root what such a scan would find.
  ghost predicate Settled(t: Tables, root: Id, cs: seq<Candidate>, notes: map<Path, LocationState>, sealed: set<Path>)
    requires Linked(t)
  {
    && (forall c <- cs :: Matched(t, root, c))
    && (forall l | Unseen(t, l, root, PathsOf(cs)) ::
          && t.locations[l].state == UnseenState(t.locations[l].path, notes, sealed)
          && t.sources[t.locations[l].source].lineage == if t.locations[l].state == Missing then Lost else Active)
  }

  lemma ScannedSettles(t: Tables, root: Id, cs: seq<Candidate>, notes: map<Path, LocationState>,
                       sealed: set<Path>, gone: Path -> bool)
    requires Consistent(t) && root in t.roots
    requires DistinctPaths(cs) && forall c <- cs :: !gone(c.path)
    requires Consistent(Scanned(t, root, cs, notes, sealed, gone))
    ensures Settled(Scanned(t, root, cs, notes, sealed, gone), root, cs, notes, sealed)
  {
    var r := Scanned(t, root, cs, notes, sealed, gone);
    forall c <- cs ensures Matched(r, root, c) {
      ScannedCandidates(t, root, cs, notes, sealed, gone, c);
    }
    forall l | Unseen(r, l, root, PathsOf(cs))
      ensures r.locations[l].state == UnseenState(r.locations[l].path, notes, sealed)
      ensures r.sources[r.locations[l].source].lineage == if r.locations[l].state == Missing then Lost else Active
    {
      ScannedUnseen(t, root, cs, notes, sealed, gone, l);
    }
  }

  lemma OneIdle(t: Tables, root: Id, c: Candidate, gone: Path -> bool)
    requires Consistent(t) && root in t.roots && Matched(t, root, c)
    ensures One(t, root, c, gone) == t
  {
    var l :| MatchedAt(t, l, root, c);
    assert At(t.locations, l, root, c.path);
    assert Existing(t.locations, root, c.path) == Some(l);
    var r, s := Refresh(t, l, c), t.locations[l].source;
    assert r.locations == t.locations;
    assert r.sources == t.sources;
    assert r.revisions == t.revisions;
  }

  lemma {:induction false} AllIdle(t: Tables, root: Id, cs: seq<Candidate>, gone: Path -> bool)
    requires Consistent(t) && root in t.roots && forall c <- cs :: Matched(t, root, c)
    ensures All(t, root, cs, gone) == t
    decreases |cs|
  {
    if cs != [] {
      AllIdle(t, root, cs[..|cs| - 1], gone);
      OneIdle(t, root, cs[|cs| - 1], gone);
    }
  }

  lemma MarkUnseenIdle(t: Tables, root: Id, seen: set<Path>, notes: map<Path, LocationState>, sealed: set<Path>)
    requires OneHome(t.locations) && Placed(t.locations, t.roots.Keys, t.sources.Keys)
    requires forall l | Unseen(t, l, root, seen) ::
      && t.locations[l].state == UnseenState(t.locations[l].path, notes, sealed)
      && t.sources[t.locations[l].source].lineage == if t.locations[l].state == Missing then Lost else Active
    ensures MarkUnseen(t, root, seen, notes, sealed) == t.(revision := t.revision + 1)
  {
    var r := MarkUnseen(t, root, seen, notes, sealed);
    assert r.locations == t.locations;
    forall s <- t.sources ensures r.sources[s] == t.sources[s] {
      if HomeIn(t, s, UnseenIds(t, root, seen)) {
        var l :| l in UnseenIds(t, root, seen) && l in t.locations && t.locations[l].source == s;
        assert Reachable(t.locations, s) <==> t.locations[l].state != Missing;
      }
    }
    assert r.sources == t.sources;
  }

  // A scan of a settled Root writes nothing but the library revision: no new
  // Source, revision, Location or Asset, no state change, curation untouched.
  lemma RescanIdle(t: Tables, root: Id, cs: seq<Candidate>, notes: map<Path, LocationState>,
                   sealed: set<Path>, gone: Path -> bool)
    requires Consistent(t) && root in t.roots
    requires Settled(t, root, cs, notes, sealed)
    ensures Scanned(t, root, cs, notes, sealed, gone) == t.(revision := t.revision + 1)
  {
    AllIdle(t, root, cs, gone);
    MarkUnseenIdle(t, root, PathsOf(cs), notes, sealed);
  }

  /** Renames. */

  // An equal fingerprint adds no row anywhere.
  lemma RefreshKeepsRows(t: Tables, l: Id, c: Candidate)
    requires Linked(t) && l in t.locations
    requires CurrentRevision(t, l).fingerprint == Some(c.facts.fingerprint)
    ensures var r := Refresh(t, l, c);
      && r.locations.Keys == t.locations.Keys && r.sources.Keys == t.sources.Keys
      && r.revisions.Keys == t.revisions.Keys && r.assets == t.assets && r.origins == t.origins
      && r.sources[t.locations[l].source].current == t.sources[t.locations[l].source].current
  {
  }

  // Under the strict evidence the same Location, Source and current revision
  // (hence the same Asset) are found again at the new path.
  lemma RenameKeepsRow(t: Tables, root: Id, c: Candidate, gone: Path -> bool, l: Id)
    requires Consistent(t) && root in t.roots && Consistent(One(t, root, c, gone))
    requires Existing(t.locations, root, c.path).None? && Renamed(t, l, root, c, gone)
    ensures var r := One(t, root, c, gone);
      && MatchedAt(r, l, root, c)
      && r.locations.Keys == t.locations.Keys && r.sources.Keys == t.sources.Keys
      && r.revisions.Keys == t.revisions.Keys && r.assets == t.assets && r.origins == t.origins
      && r.locations[l].source == t.locations[l].source
      && r.sources[r.locations[l].source].current == t.sources[t.locations[l].source].current
  {
    var m := Relocate(t, l, c);
    assert One(t, root, c, gone) == Refresh(m, l, c) by {
      assert Relocated(t, root, c, gone) == Some(l);
    }
    RelocateKeeps(t, l, c);
    RefreshTouches(m, l, c, l);
    RefreshKeepsRows(m, l, c);
    KeysKept(t.locations, l, m.locations[l]);
  }

  // A Location changes its path only that way.
  lemma MovesOnlyWhenRenamed(t: Tables, root: Id, c: Candidate, gone: Path -> bool, l: Id)
    requires Consistent(t) && root in t.roots && l in t.locations
    requires KeepsIdentity(t, One(t, root, c, gone))
    ensures One(t, root, c, gone).locations[l].path != t.locations[l].path
      <==> Existing(t.locations, root, c.path).None? && Renamed(t, l, root, c, gone)
  {
    match Existing(t.locations, root, c.path)
    case Some(k) =>
    case None =>
      match Relocated(t, root, c, gone)
      case Some(k) => assert Renamed(t, l, root, c, gone) ==> l == k;
      case None =>
  }

  /** Before the traversal has finished nothing is declared missing. */

  lemma {:induction false} AllNeverMisses(t: Tables, root: Id, cs: seq<Candidate>, gone: Path -> bool, l: Id)
    requires Consistent(t) && root in t.roots && l in All(t, root, cs, gone).locations
    requires All(t, root, cs, gone).locations[l].state == Missing
    ensures l in t.locations && t.locations[l] == All(t, root, cs, gone).locations[l]
    decreases |cs|
  {
    if cs != [] {
      var before := All(t, root, cs[..|cs| - 1], gone);
      OneTouches(before, root, cs[|cs| - 1], gone, l);
      AllNeverMisses(t, root, cs[..|cs| - 1], gone, l);
    }
  }

  /** How a scan ends. */

  datatype IoKind = NotFound | Denied | Loop | Other

  // Why a scan can fail: an I/O error, or a traversal limit.
  datatype Fault = Io(kind: IoKind) | LimitExceeded {
    function RootState(): RootState {
      match this
      case Io(NotFound) => OfflineVolume
      case Io(Denied) => NeedsPermission
      case Io(_) => Unavailable
      case LimitExceeded => Errored
    }

    function LocationState(): Option<LocationState> {
      match this
      case Io(NotFound) => Some(OfflineRoot)
      case Io(Denied) => Some(PermissionDenied)
      case Io(_) => Some(Unreadable)
      case LimitExceeded => None
    }
  }

  function Progressed(jobs: map<Id, Job>, job: Id, observed: nat, unsupported: nat): map<Id, Job> {
    if job in jobs then jobs[job := jobs[job].(observed := observed, unsupported := unsupported)] else jobs
  }

  function Concluded(t: Tables, root: Id, rootState: RootState, job: Id, jobState: JobState,
                     observed: nat, unsupported: nat): Tables
  {
    t.(roots := if root in t.roots then t.roots[root := t.roots[root].(state := rootState)] else t.roots,
       jobs := if job in t.jobs
               then t.jobs[job := t.jobs[job].(state := jobState, observed := observed, unsupported := unsupported)]
               else t.jobs)
  }

  function FailedScan(t: Tables, root: Id, job: Id, fault: Fault): Tables {
    t.(roots := if root in t.roots then t.roots[root := t.roots[root].(state := fault.RootState())] else t.roots,
       locations := if fault.LocationState().None? then t.locations else
         map l | l in t.locations ::
           if t.locations[l].root == root then t.locations[l].(state := fault.LocationState().value) else t.locations[l],
       jobs := if job in t.jobs then t.jobs[job := t.jobs[job].(state := JobState.Failed)] else t.jobs)
  }

  // The end of a scan that was not lost: its Root's state, its job's state and
  // counts, and nothing else.
  lemma ConcludedRows(t: Tables, root: Id, rootState: RootState, job: Id, jobState: JobState, observed: nat, unsupported: nat)
    requires root in t.roots
    ensures var r := Concluded(t, root, rootState, job, jobState, observed, unsupported);
      && r == t.(roots := r.roots, jobs := r.jobs) && r.roots.Keys == t.roots.Keys && r.jobs.Keys == t.jobs.Keys
      && r.roots[root] == t.roots[root].(state := rootState) && (forall k <- t.roots | k != root :: r.roots[k] == t.roots[k])
      && (job in t.jobs ==> r.jobs[job] == Job(t.jobs[job].kind, t.jobs[job].root, jobState, observed, unsupported))
      && (forall j <- t.jobs | j != job :: r.jobs[j] == t.jobs[j])
  {
  }

  // A failed scan: a Root that is not there is offline, one that may not be read
  // needs permission, one that cannot be read is unavailable, and its Locations
  // say the same; a Root that is too large is in error and its Locations stay.
  lemma FailedRows(t: Tables, root: Id, job: Id, fault: Fault)
    requires root in t.roots
    ensures var r := FailedScan(t, root, job, fault);
      && r == t.(roots := r.roots, locations := r.locations, jobs := r.jobs)
      && r.roots.Keys == t.roots.Keys && r.locations.Keys == t.locations.Keys && r.jobs.Keys == t.jobs.Keys
      && r.roots[root].display == t.roots[root].display && r.roots[root].linked == t.roots[root].linked
      && (forall k <- t.roots | k != root :: r.roots[k] == t.roots[k])
      && (forall l <- t.locations | t.locations[l].root != root :: r.locations[l] == t.locations[l])
      && (fault == Io(NotFound) ==> r.roots[root].state == OfflineVolume && AllOf(t.locations, r.locations, root, OfflineRoot))
      && (fault == Io(Denied) ==> r.roots[root].state == NeedsPermission && AllOf(t.locations, r.locations, root, PermissionDenied))
      && (fault == Io(Loop) || fault == Io(Other) ==> r.roots[root].state == Unavailable && AllOf(t.locations, r.locations, root, Unreadable))
      && (fault == LimitExceeded ==> r.roots[root].state == Errored && r.locations == t.locations)
      && (job in t.jobs ==> r.jobs[job] == t.jobs[job].(state := JobState.Failed))
      && (forall j <- t.jobs | j != job :: r.jobs[j] == t.jobs[j])
  {
  }

  // Every Location of the Root has this state and is otherwise as it was.
  ghost predicate AllOf(a: map<Id, Location>, b: map<Id, Location>, root: Id, state: LocationState) {
    forall l <- a | a[l].root == root :: l in b && b[l] == a[l].(state := state)
  }
}
