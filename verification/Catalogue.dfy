/**
 The catalogue as the scanner writes it: one object whose fields are the tables,
 row updates in place, and the keyset loop over unseen Locations.  Every method
 is specified by a function on the value of the tables, `View()`.
 */
module CatalogueStore {
  import opened Wrappers
  import opened Sets
  import opened Tables
  import opened Reconcile
  import opened ScanOutcome

  const PAGE := 256

  // The text of an id as a place in the byte order of id texts: any order at
  // all, as long as distinct ids have distinct texts.
  ghost predicate Ordered(text: Id -> nat) {
    forall a, b {:trigger text(a), text(b)} | text(a) == text(b) :: a == b
  }

  ghost predicate Ascending(page: seq<Id>, text: Id -> nat) {
    forall i, j | 0 <= i < j < |page| :: text(page[i]) < text(page[j])
  }

  // The first rows in text order: all of them, or a full page of the lowest.
  ghost predicate IsFirstPage(page: seq<Id>, ids: set<Id>, text: Id -> nat) {
    && Ascending(page, text)
    && (forall l <- page :: l in ids)
    && (forall l <- ids :: l in page || (|page| == 256 && forall k <- page :: text(k) < text(l)))
  }

  method FirstPage(ids: set<Id>, text: Id -> nat) returns (page: seq<Id>)
    requires Ordered(text)
    ensures IsFirstPage(page, ids, text)
  {
    page := [];
    var rest := ids;
    while rest != {} && |page| < PAGE
      invariant |page| <= PAGE && Ascending(page, text) && rest <= ids
      invariant forall l <- page :: l in ids
      invariant forall l <- ids :: l in page || l in rest
      invariant forall k <- page, l <- rest :: text(k) < text(l)
      decreases rest
    {
      ghost var first := Smallest(rest, (l: Id) => text(l));
      assert first in rest && forall k <- rest :: text(first) <= text(k);
      var l :| l in rest && forall k <- rest :: text(l) <= text(k);
      forall k <- rest - {l} ensures text(l) < text(k) {
        assert text(l) != text(k);
      }
      page := page + [l];
      rest := rest - {l};
    }
  }

  class Catalogue {
    const library: string
    var roots: map<Id, Root>
    var sources: map<Id, Source>
    var revisions: map<Id, Revision>
    var locations: map<Id, Location>
    var origins: map<Id, Origin>
    var assets: map<Id, Asset>
    var collections: map<Id, Collection>
    var members: set<(Id, Id)>
    var jobs: map<Id, Job>
    var revision: nat
    var drawn: nat

    ghost function View(): Tables
      reads this
    {
      Tables(library, roots, sources, revisions, locations, origins, assets, collections, members, jobs, revision, drawn)
    }

    constructor (library: string)
      ensures View() == Tables(library, map[], map[], map[], map[], map[], map[], map[], {}, map[], 0, 0)
      ensures Consistent(View())
    {
      this.library := library;
      roots, sources, revisions, locations, origins := map[], map[], map[], map[], map[];
      assets, collections, members, jobs, revision, drawn := map[], map[], {}, map[], 0, 0;
    }

    method ExistingLocation(root: Id, path: Path) returns (found: Option<Id>)
      requires Exclusive(View())
      ensures found == Existing(View().locations, root, path)
    {
      if l :| l in locations && locations[l].root == root && locations[l].path == path {
        found := Some(l);
        assert At(View().locations, l, root, path);
      } else {
        found := None;
      }
    }

    method RelocatedLocation(root: Id, c: Candidate, gone: Path -> bool) returns (found: Option<Id>)
      requires Linked(View())
      ensures found == Relocated(View(), root, c, gone)
    {
      found := None;
      if c.facts.fileId.None? || c.facts.links != Some(1) {
        return;
      }
      var matches := set l | l in locations && locations[l].root == root
                             && locations[l].fileId == c.facts.fileId && locations[l].path != c.path;
      assert forall l :: l in matches <==> Twin(View(), l, root, c);
      forall l | Renamed(View(), l, root, c, gone) ensures |matches| == 1 {
        assert matches == {l};
      }
      if |matches| != 1 {
        return;
      }
      var l :| l in matches;
      OnlyOne(matches, l);
      var current := revisions[sources[locations[l].source].current];
      if current.size == c.facts.size && current.fingerprint == Some(c.facts.fingerprint) && gone(locations[l].path) {
        found := Some(l);
        assert Renamed(View(), l, root, c, gone);
      }
    }

    method RelocateExisting(l: Id, c: Candidate)
      requires l in locations
      modifies this
      ensures View() == old(Relocate(View(), l, c))
      ensures locations.Keys == old(locations.Keys) && (forall k <- locations | k != l :: locations[k] == old(locations)[k])
      ensures var was, now := old(locations)[l], locations[l];
        && now.path == c.path && now.display == c.facts.display && now.state == MovedCandidate
        && now.root == was.root && now.source == was.source && now.fileId == was.fileId && now.size == was.size && now.mtime == was.mtime
    {
      locations := locations[l := locations[l].(path := c.path, display := c.facts.display, state := MovedCandidate)];
    }

    method RefreshExisting(l: Id, c: Candidate)
      requires Linked(View()) && l in locations
      modifies this
      ensures View() == old(Refresh(View(), l, c))
    {
      var f := c.facts;
      var s := locations[l].source;
      var now := sources[s].current;
      locations := locations[l := locations[l].(state := c.State(), display := f.display, size := Some(f.size),
                                                mtime := f.mtime, fileId := f.fileId)];
      if revisions[now].fingerprint != Some(f.fingerprint) {
        var id := Draw();
        revisions := revisions[id := FirstRevision(s, f)];
        sources := sources[s := Source(f.family, id, Active)];
      } else {
        sources := sources[s := Source(f.family, now, Active)];
        revisions := revisions[now := revisions[now].(media := f.media)];
      }
    }

    method Draw() returns (id: Id)
      modifies this`drawn
      ensures id == old(drawn) && drawn == old(drawn) + 1
    {
      id := drawn;
      drawn := drawn + 1;
    }

    method InsertNew(root: Id, c: Candidate) returns (asset: Id)
      modifies this
      ensures View() == old(Insert(View(), root, c))
      ensures asset == old(drawn) + 3
    {
      var f := c.facts;
      var source, first, location, origin := drawn, drawn + 1, drawn + 2, drawn + 4;
      asset := drawn + 3;
      drawn := drawn + 5;
      sources := sources[source := Source(f.family, first, Active)];
      revisions := revisions[first := FirstRevision(source, f)];
      locations := locations[location := Location(root, source, c.path, f.display, f.fileId, c.State(), Some(f.size), f.mtime)];
      assets := assets[asset := Asset(None, Unreviewed, None, [], [], 0)];
      origins := origins[origin := Origin(asset, source)];
    }

    // One candidate of a batch: refresh its row, or a renamed one, or insert it.
    method Merge(root: Id, c: Candidate, gone: Path -> bool)
      requires Consistent(View()) && root in roots
      modifies this
      ensures View() == old(One(View(), root, c, gone))
      ensures Consistent(View()) && KeepsIdentity(old(View()), View())
    {
      OneKeeps(View(), root, c, gone);
      var existing := ExistingLocation(root, c.path);
      if existing.Some? {
        RefreshExisting(existing.value, c);
      } else {
        var relocated := RelocatedLocation(root, c, gone);
        if relocated.Some? {
          RelocateKeeps(View(), relocated.value, c);
          RelocateExisting(relocated.value, c);
          RefreshExisting(relocated.value, c);
        } else {
          var _ := InsertNew(root, c);
        }
      }
    }

    // The next page of unseen Locations in id order, after the given id text.
    method NextUnresolved(root: Id, seen: set<Path>, after: int, text: Id -> nat) returns (page: seq<Id>)
      requires Ordered(text)
      ensures IsFirstPage(page, (set l | l in UnseenIds(View(), root, seen) && after < text(l)), text)
    {
      ghost var wanted := set l | l in UnseenIds(View(), root, seen) && after < text(l);
      var rows := set l | l in locations && locations[l].root == root && locations[l].path !in seen && after < text(l);
      assert rows == wanted;
      page := FirstPage(rows, text);
    }

    // UPDATE locations SET state ...; UPDATE sources SET lineage_state = CASE WHEN EXISTS ...
    method Restate(l: Id, state: LocationState)
      requires l in locations && locations[l].source in sources
      modifies this`locations, this`sources
      ensures View() == old(MarkOne(View(), l, state))
    {
      var s := locations[l].source;
      locations := locations[l := locations[l].(state := state)];
      if k :| k in locations && locations[k].source == s && locations[k].state != Missing {
        assert Reachable(locations, s);
        sources := sources[s := sources[s].(lineage := Active)];
      } else {
        sources := sources[s := sources[s].(lineage := Lost)];
      }
    }

    // The keyset loop: page by page after the last id, until a page comes back empty.
    method MarkUnseenLocations(root: Id, seen: set<Path>, notes: map<Path, LocationState>, sealed: set<Path>, text: Id -> nat)
      requires Placed(locations, roots.Keys, sources.Keys) && Ordered(text)
      modifies this
      ensures View() == old(MarkUnseen(View(), root, seen, notes, sealed))
      ensures revision == old(revision) + 1
    {
      hide MarkIds, IsFirstPage, UnseenIds, Ordered, UpTo, Through;
      ghost var t := View();
      ghost var unseen := UnseenIds(t, root, seen);
      var after := -1;
      MarkNone(t, notes, sealed);
      NoneYet(unseen, text);
      while true
        invariant View() == MarkIds(t, UpTo(unseen, after, text), notes, sealed)
        decreases |unseen - UpTo(unseen, after, text)|
      {
        StillUnseen(t, UpTo(unseen, after, text), root, seen, notes, sealed);
        var page := NextUnresolved(root, seen, after, text);
        if page == [] {
          AllDone(unseen, after, text);
          break;
        }
        PageRows(t, page, root, seen, after, text);
        ghost var before := after;
        after := MarkPage(t, UpTo(unseen, before, text), page, notes, sealed, text);
        PageDone(unseen, page, before, after, text);
      }
      BumpRevision();
    }

    method MarkLocation(ghost t: Tables, ghost ids: set<Id>, l: Id, notes: map<Path, LocationState>, sealed: set<Path>)
      requires Placed(t.locations, t.roots.Keys, t.sources.Keys) && View() == MarkIds(t, ids, notes, sealed)
      requires l in t.locations && l !in ids
      modifies this`locations, this`sources
      ensures View() == MarkIds(t, ids + {l}, notes, sealed)
    {
      MarkStep(t, ids, l, notes, sealed);
      Restate(l, UnseenState(locations[l].path, notes, sealed));
    }

    // The body of the keyset loop: mark every row of the page, remember the last id.
    method MarkPage(ghost t: Tables, ghost done: set<Id>, page: seq<Id>, notes: map<Path, LocationState>,
                    sealed: set<Path>, text: Id -> nat) returns (after: int)
      requires Placed(t.locations, t.roots.Keys, t.sources.Keys) && View() == MarkIds(t, done, notes, sealed)
      requires page != [] && Ascending(page, text)
      requires forall l <- page :: l in t.locations && l !in done
      modifies this`locations, this`sources
      ensures View() == MarkIds(t, Through(done, page, |page|), notes, sealed)
      ensures after == text(page[|page| - 1])
    {
      ghost var ids := done;
      after := -1;
      for i := 0 to |page|
        invariant ids == Through(done, page, i) && View() == MarkIds(t, ids, notes, sealed)
        invariant i > 0 ==> after == text(page[i - 1])
      {
        after := text(page[i]);
        ThroughStep(done, page, i, text);
        MarkLocation(t, ids, page[i], notes, sealed);
        ids := ids + {page[i]};
      }
    }

    method BumpRevision()
      modifies this`revision
      ensures revision == old(revision) + 1
    {
      revision := revision + 1;
    }

    // The bookkeeping that closes a batch: the job's progress, the revision.
    method Progress(job: Id, observed: nat, unsupported: nat)
      modifies this`jobs, this`revision
      ensures View() == old(View().(jobs := Progressed(jobs, job, observed, unsupported), revision := revision + 1))
    {
      if job in jobs {
        jobs := jobs[job := jobs[job].(observed := observed, unsupported := unsupported)];
      }
      BumpRevision();
    }

    // The closing transaction of a scan; a row that is gone is not updated.
    method Conclude(root: Id, rootState: RootState, job: Id, jobState: JobState, observed: nat, unsupported: nat)
      modifies this`roots, this`jobs, this`revision
      ensures View() == old(Bump(Concluded(View(), root, rootState, job, jobState, observed, unsupported)))
      ensures revision == old(revision) + 1
    {
      if root in roots {
        roots := roots[root := roots[root].(state := rootState)];
      }
      if job in jobs {
        jobs := jobs[job := jobs[job].(state := jobState, observed := observed, unsupported := unsupported)];
      }
      BumpRevision();
    }

    method MarkFailed(root: Id, job: Id, fault: Fault)
      modifies this`roots, this`locations, this`jobs, this`revision
      ensures View() == old(Bump(FailedScan(View(), root, job, fault)))
      ensures revision == old(revision) + 1
    {
      if root in roots {
        roots := roots[root := roots[root].(state := fault.RootState())];
      }
      if fault.LocationState().Some? {
        var state := fault.LocationState().value;
        locations := map l | l in locations ::
          if locations[l].root == root then locations[l].(state := state) else locations[l];
      }
      if job in jobs {
        jobs := jobs[job := jobs[job].(state := JobState.Failed)];
      }
      BumpRevision();
    }
  }

  lemma OnlyOne<T>(s: set<T>, x: T)
    requires |s| == 1 && x in s
    ensures forall y <- s :: y == x
  {
    assert |s - {x}| == 0;
    assert s - {x} == {};
    assert forall y <- s :: y == x || y in s - {x};
  }

  ghost function UpTo(ids: set<Id>, after: int, text: Id -> nat): set<Id> {
    set l | l in ids && text(l) <= after
  }

  ghost function Through(done: set<Id>, page: seq<Id>, i: nat): set<Id>
    requires i <= |page|
  {
    done + set l | l in page[..i]
  }

  lemma ThroughStep(done: set<Id>, page: seq<Id>, i: nat, text: Id -> nat)
    requires i < |page| && page[i] !in done && Ascending(page, text)
    ensures page[i] !in Through(done, page, i)
    ensures Through(done, page, i + 1) == Through(done, page, i) + {page[i]}
  {
  }

  lemma MarkNone(t: Tables, notes: map<Path, LocationState>, sealed: set<Path>)
    ensures MarkIds(t, {}, notes, sealed) == t
  {
    assert Restated(t, {}, notes, sealed) == t.locations;
    assert MarkIds(t, {}, notes, sealed).sources == t.sources;
  }

  // Marking changes no root and no path, so the same rows are still unseen.
  lemma StillUnseen(t: Tables, ids: set<Id>, root: Id, seen: set<Path>, notes: map<Path, LocationState>, sealed: set<Path>)
    ensures UnseenIds(MarkIds(t, ids, notes, sealed), root, seen) == UnseenIds(t, root, seen)
    ensures MarkIds(t, ids, notes, sealed).revision == t.revision
  {
  }

  lemma NoneYet(ids: set<Id>, text: Id -> nat)
    ensures UpTo(ids, -1, text) == {}
  {
  }

  lemma AllDone(ids: set<Id>, after: int, text: Id -> nat)
    requires IsFirstPage([], (set l | l in ids && after < text(l)), text)
    ensures UpTo(ids, after, text) == ids
  {
  }

  lemma PageRows(t: Tables, page: seq<Id>, root: Id, seen: set<Path>, after: int, text: Id -> nat)
    requires IsFirstPage(page, (set l | l in UnseenIds(t, root, seen) && after < text(l)), text)
    ensures Ascending(page, text)
    ensures forall l <- page :: l in t.locations && l !in UpTo(UnseenIds(t, root, seen), after, text)
  {
  }

  lemma PageDone(ids: set<Id>, page: seq<Id>, before: int, after: int, text: Id -> nat)
    requires page != [] && after == text(page[|page| - 1])
    requires IsFirstPage(page, (set l | l in ids && before < text(l)), text)
    ensures Through(UpTo(ids, before, text), page, |page|) == UpTo(ids, after, text)
    ensures |ids - UpTo(ids, after, text)| < |ids - UpTo(ids, before, text)|
  {
    var last := page[|page| - 1];
    var low, high := ids - UpTo(ids, after, text), ids - UpTo(ids, before, text);
    assert last in page && before < after;
    assert page[..|page|] == page;
    assert low <= high && last in high && last !in low;
    SubsetSize(low, high);
  }

}
