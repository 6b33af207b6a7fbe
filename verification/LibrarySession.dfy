/**
 The session's commands as it runs them: checks, then one transaction on the
 database, then the Root authorities it keeps in memory.
 */
module LibrarySession {
  import opened Wrappers
  import opened Tables
  import opened Commands

  class Session {
    var t: Tables
    var authorized: set<Id>

    // Ids have been drawn, memberships are of Collections and Assets that exist,
    // and only Roots of the Library are authorized.
    ghost predicate Valid()
      reads this
    {
      Stored(t) && authorized <= t.roots.Keys
    }

    // Opening recovers and unbinds; no authority survives from another process.
    constructor (database: Tables)
      requires Stored(database)
      ensures Valid() && t == Recovery(database, OPENING) && authorized == {}
      ensures Reopened(database, t)
    {
      t, authorized := Recovery(database, OPENING), {};
    }

    // Unfinished jobs of a Root, of any kind.
    method HasActiveJob(root: Id) returns (active: bool)
      ensures active <==> exists j <- t.jobs :: t.jobs[j].root == root && (t.jobs[j].state == Queued || t.jobs[j].state == Running)
      ensures active == Busy(t.jobs, root)
    {
      active := exists j :: j in t.jobs && t.jobs[j].root == root && !t.jobs[j].state.Terminal();
    }

    // The Root's row and the job's, in one transaction.
    method Begin(root: Id, row: Root, job: Id)
      modifies this`t
      ensures t == StartScan(old(t), root, row, job)
    {
      t := t.(roots := t.roots[root := row.(state := Scanning)],
              jobs := t.jobs[job := NewScan(root)],
              revision := t.revision + 1,
              drawn := job + 1);
    }

    method AddRoot(found: Option<Id>, display: string) returns (r: Result<(Id, Id), Refusal>)
      requires Valid()
      modifies this
      ensures Valid()
      ensures r == Err(RootNotFound) <==> found.Some? && found.value !in old(t).roots
      ensures r == Err(RootLimitReached) <==> found.None? && |old(t).roots| >= 64
      ensures r == Err(RootScanInProgress) <==>
        && (found.Some? ==> found.value in old(t).roots) && (found.None? ==> |old(t).roots| < 64)
        && Busy(old(t).jobs, if found.Some? then found.value else old(t).drawn)
      ensures r.Ok? ==>
        && r.value.0 == (if found.Some? then found.value else old(t).drawn)
        && (found.None? ==> r.value.0 !in old(t).roots) && Started(old(t), t, r.value.0, r.value.1)
        && t.roots[r.value.0].display == display && (found.None? ==> t.roots[r.value.0].linked)
      ensures match Commands.AddRoot(old(t), found, display)
        case Ok(next) => r.Ok? && t == next && authorized == old(authorized) + {r.value.0}
        case Err(why) => r == Err(why) && t == old(t) && authorized == old(authorized)
    {
      hide Started, Busy, Stored, SameRows, StartScan;
      if found.Some? && found.value !in t.roots {
        return Err(RootNotFound);
      }
      if found.None? && |t.roots| >= MAX_ROOTS {
        return Err(RootLimitReached);
      }
      ghost var next := Commands.AddRoot(t, found, display);
      if next.Ok? { AddMeans(t, found, display); }
      var root := if found.Some? then found.value else t.drawn;
      var active := HasActiveJob(root);
      if active {
        return Err(RootScanInProgress);
      }
      var job := if found.Some? then t.drawn else t.drawn + 1;
      var row := if found.Some? then t.roots[root].(display := display) else Root(display, true, Scanning);
      Begin(root, row, job);
      authorized := authorized + {root};
      return Ok((root, job));
    }

    method BindRoot(root: Id, evidence: bool) returns (r: Result<(), Refusal>)
      requires Valid()
      modifies this
      ensures Valid()
      ensures r == Err(RootNotFound) <==> root !in old(t).roots
      ensures r == Err(RootScanInProgress) <==> root in old(t).roots && Busy(old(t).jobs, root)
      ensures r == Err(RootPermissionRequired) <==> root in old(t).roots && !Busy(old(t).jobs, root) && !evidence
      ensures r.Err? ==>
        && t == old(t) && authorized == old(authorized)
        && (r == Err(RootNotFound) || r == Err(RootScanInProgress) || r == Err(RootPermissionRequired))
      ensures r.Ok? ==>
        && t.roots.Keys == old(t).roots.Keys && t.roots[root].state == Connected
        && t.roots[root].display == old(t).roots[root].display && t.roots[root].linked == old(t).roots[root].linked
        && (forall k <- t.roots | k != root :: t.roots[k] == old(t).roots[k])
        && t.revision == old(t).revision + 1 && t == old(t).(roots := t.roots, revision := t.revision)
        && authorized == old(authorized) + {root}
      ensures evidence ==> Commands.BindRoot(old(t), root) == if r.Ok? then Ok(t) else Err(r.error)
    {
      if root !in t.roots {
        return Err(RootNotFound);
      }
      var active := HasActiveJob(root);
      if active {
        return Err(RootScanInProgress);
      }
      if !evidence {
        return Err(RootPermissionRequired);
      }
      t := t.(roots := t.roots[root := t.roots[root].(state := Connected)], revision := t.revision + 1);
      authorized := authorized + {root};
      return Ok(());
    }

    method ScanBoundRoot(root: Id) returns (r: Result<Id, Refusal>)
      requires Valid()
      modifies this`t
      ensures Valid()
      ensures r == Err(RootNotFound) <==> root !in old(t).roots
      ensures r == Err(RootPermissionRequired) <==> root in old(t).roots && root !in authorized
      ensures r == Err(RootScanInProgress) <==> root in authorized && Busy(old(t).jobs, root)
      ensures r.Err? ==> t == old(t) && (r == Err(RootNotFound) || r == Err(RootPermissionRequired) || r == Err(RootScanInProgress))
      ensures r.Ok? ==> Started(old(t), t, root, r.value)
      ensures Commands.ScanRoot(old(t), root, authorized) == if r.Ok? then Ok(t) else Err(r.error)
    {
      if Commands.ScanRoot(t, root, authorized).Ok? { ScanMeans(t, root, authorized); }
      hide Started, Busy, Stored, SameRows, StartScan;
      if root !in t.roots {
        return Err(RootNotFound);
      }
      if root !in authorized {
        return Err(RootPermissionRequired);
      }
      var active := HasActiveJob(root);
      if active {
        return Err(RootScanInProgress);
      }
      var job := t.drawn;
      Begin(root, t.roots[root], job);
      return Ok(job);
    }

    method UpdateAsset(asset: Id, expected: nat, patch: Patch) returns (r: Result<nat, Refusal>)
      requires Valid()
      modifies this`t
      ensures Valid()
      ensures r.Ok? <==> asset in old(t).assets && old(t).assets[asset].revision == expected
      ensures r.Err? ==> t == old(t) && r.error == if asset in t.assets then RevisionConflict(expected, t.assets[asset].revision) else AssetNotFound
      ensures r.Ok? ==>
        && r.value == t.revision == old(t).revision + 1 && t.assets.Keys == old(t).assets.Keys
        && Revised(old(t).assets[asset], patch, t.assets[asset])
        && (forall k <- t.assets | k != asset :: t.assets[k] == old(t).assets[k])
        && t == old(t).(assets := t.assets, revision := t.revision)
      ensures Commands.UpdateAsset(old(t), asset, expected, patch) == if r.Ok? then Ok(t) else Err(r.error)
    {
      if asset !in t.assets {
        return Err(AssetNotFound);
      }
      var row := t.assets[asset];
      if row.revision != expected {
        return Err(RevisionConflict(expected, row.revision));
      }
      t := t.(assets := t.assets[asset := patch.Apply(row)], revision := t.revision + 1);
      return Ok(t.revision);
    }

    method CreateCollection(name: string) returns (r: Result<Id, Refusal>)
      requires Valid()
      modifies this`t
      ensures Valid()
      ensures r == Err(CollectionNameConflict) <==> NameTaken(old(t).collections, name, None)
      ensures r == Err(CollectionLimitReached) <==>
        !NameTaken(old(t).collections, name, None) && |old(t).collections| >= 512
      ensures r.Err? ==> t == old(t) && (r == Err(CollectionNameConflict) || r == Err(CollectionLimitReached))
      ensures r.Ok? ==> Created(old(t), t, r.value, name)
      ensures Commands.CreateCollection(old(t), name) == if r.Ok? then Ok(t) else Err(r.error)
    {
      if Commands.CreateCollection(t, name).Ok? { CreateMeans(t, name); }
      hide Created, Stored;
      if exists c :: c in t.collections && Lower(t.collections[c].name) == Lower(name) {
        return Err(CollectionNameConflict);
      }
      if |t.collections| >= MAX_COLLECTIONS {
        return Err(CollectionLimitReached);
      }
      var id := t.drawn;
      t := t.(collections := t.collections[id := Collection(name, 0)], drawn := id + 1);
      t := t.(revision := t.revision + 1);
      return Ok(id);
    }

    method RenameCollection(c: Id, expected: nat, name: string) returns (r: Result<nat, Refusal>)
      requires Valid()
      modifies this`t
      ensures Valid()
      ensures r == Err(CollectionNotFound) <==> c !in old(t).collections
      ensures r.Err? && r.error.RevisionConflict? <==> c in old(t).collections && old(t).collections[c].revision != expected
      ensures r == Err(CollectionNameConflict) <==>
        && c in old(t).collections && old(t).collections[c].revision == expected
        && exists k :: k in old(t).collections && k != c && Lower(old(t).collections[k].name) == Lower(name)
      ensures r.Err? ==> t == old(t)
      ensures r.Ok? ==>
        && t.collections.Keys == old(t).collections.Keys && t.collections[c].name == name
        && r.value == t.collections[c].revision == old(t).collections[c].revision + 1 && t.revision == old(t).revision + 1
        && (forall k <- t.collections | k != c :: t.collections[k] == old(t).collections[k])
        && t == old(t).(collections := t.collections, revision := t.revision)
      ensures Commands.RenameCollection(old(t), c, expected, name) == if r.Ok? then Ok(t) else Err(r.error)
    {
      if c !in t.collections {
        return Err(CollectionNotFound);
      }
      var row := t.collections[c];
      if row.revision != expected {
        return Err(RevisionConflict(expected, row.revision));
      }
      if exists k :: k in t.collections && k != c && Lower(t.collections[k].name) == Lower(name) {
        return Err(CollectionNameConflict);
      }
      t := t.(collections := t.collections[c := Collection(name, row.revision + 1)]);
      t := t.(revision := t.revision + 1);
      return Ok(expected + 1);
    }

    // Deleting a Collection deletes its memberships, and nothing else.
    method DeleteCollection(c: Id) returns (r: Result<nat, Refusal>)
      requires Valid()
      modifies this`t
      ensures Valid()
      ensures r == Err(CollectionNotFound) <==> c !in old(t).collections
      ensures r.Err? ==> t == old(t) && r == Err(CollectionNotFound)
      ensures r.Ok? ==> r.value == t.revision && Deleted(old(t), t, c)
      ensures Commands.DeleteCollection(old(t), c) == if r.Ok? then Ok(t) else Err(r.error)
    {
      if Commands.DeleteCollection(t, c).Ok? { DeleteMeans(t, c); }
      hide Deleted, Stored;
      if c !in t.collections {
        return Err(CollectionNotFound);
      }
      t := t.(collections := t.collections - {c}, members := (set m | m in t.members && m.0 != c));
      t := t.(revision := t.revision + 1);
      return Ok(t.revision);
    }

    // One row at a time; the revision moves only if some row did.
    method SetMembership(c: Id, assets: seq<Id>, member: bool) returns (r: Result<nat, Refusal>)
      requires Valid()
      modifies this`t
      ensures Valid()
      ensures r == Err(CollectionNotFound) <==> Listing(assets) && c !in old(t).collections
      ensures r == Err(MembershipInvalid) <==>
        !Listing(assets) || (c in old(t).collections && exists a <- assets :: a !in old(t).assets)
      ensures r.Ok? ==> Joined(old(t), t, c, assets, member)
      ensures match Commands.SetMembership(old(t), c, assets, member)
        case Ok(next) => r == Ok(|Affected(old(t), c, Ids(assets), member)|) && t == next
        case Err(why) => r == Err(why) && t == old(t)
    {
      hide Affected, Ids, Joined, CollectionsOf, Listing, Stored;
      RefusedMeans(t, c, assets, member);
      if Commands.SetMembership(t, c, assets, member).Ok? { JoinedMeans(t, c, assets, member); }
      var ids := Ids(assets);
      if |assets| == 0 || |assets| > MAX_COLLECTION_MEMBERSHIP_BATCH || |ids| != |assets| {
        return Err(MembershipInvalid);
      }
      if c !in t.collections {
        return Err(CollectionNotFound);
      }
      if !(ids <= t.assets.Keys) {
        return Err(MembershipInvalid);
      }
      if member && exists a :: a in ids && (c, a) !in t.members && |CollectionsOf(t.members, a)| >= MAX_ASSET_COLLECTIONS {
        return Err(AssetCollectionLimitReached);
      }
      var members, affected := Move(c, ids, member);
      if affected > 0 {
        t := t.(members := members,
                collections := t.collections[c := t.collections[c].(revision := t.collections[c].revision + 1)],
                revision := t.revision + 1);
      }
      return Ok(affected);
    }

    method Move(c: Id, ids: set<Id>, member: bool) returns (members: set<(Id, Id)>, affected: nat)
      ensures affected == |Affected(t, c, ids, member)|
      ensures members == Moved(t.members, Affected(t, c, ids, member), member)
    {
      hide Affected, Moved;
      members, affected := t.members, 0;
      var rest := ids;
      ghost var done: set<Id> := {};
      NoneAffected(t, c, member);
      while rest != {}
        invariant done !! rest && done + rest == ids
        invariant affected == |Affected(t, c, done, member)|
        invariant members == Moved(t.members, Affected(t, c, done, member), member)
        decreases rest
      {
        var a :| a in rest;
        OneAffected(t, c, done, a, member);
        MoveOne(t.members, Affected(t, c, done, member), (c, a), member);
        if ((c, a) in members) != member {
          members := if member then members + {(c, a)} else members - {(c, a)};
          affected := affected + 1;
        }
        rest := rest - {a};
        done := done + {a};
      }
      assert done == ids;
    }
  }

  // What the database guarantees of its rows.
  ghost predicate Stored(t: Tables) { Drawn(t) && Filed(t.members, t.collections.Keys, t.assets.Keys) }

  // Unfinished jobs have failed, Roots that were being scanned are in error,
  // linked ones that are not in error need a permission, nothing else has
  // changed, and the revision advances if a job or a scan was left over.
  ghost predicate Reopened(before: Tables, after: Tables) {
    && after.jobs.Keys == before.jobs.Keys && after.roots.Keys == before.roots.Keys
    && (forall j <- before.jobs :: var was := before.jobs[j];
          after.jobs[j] == if was.state == Queued || was.state == Running then was.(state := JobState.Failed) else was)
    && (forall k <- before.roots :: var was := before.roots[k];
          after.roots[k] == if was.state == Scanning then was.(state := Errored)
                            else if was.linked && was.state != Errored then was.(state := NeedsPermission) else was)
    && after.revision == before.revision + (if LeftOver(before) then 1 else 0)
    && after == before.(jobs := after.jobs, roots := after.roots, revision := after.revision)
  }

  ghost predicate LeftOver(t: Tables) {
    || (exists j <- t.jobs :: t.jobs[j].state == Queued || t.jobs[j].state == Running)
    || (exists k <- t.roots :: t.roots[k].state == Scanning)
  }

  // At most 250 Assets, at least one, and none twice.
  ghost predicate Listing(assets: seq<Id>) {
    0 < |assets| <= 250 && forall i, j | 0 <= i < j < |assets| :: assets[i] != assets[j]
  }

  lemma {:induction false} NoneTwice(assets: seq<Id>)
    ensures |Ids(assets)| <= |assets|
    ensures |Ids(assets)| == |assets| <==> forall i, j | 0 <= i < j < |assets| :: assets[i] != assets[j]
  {
    if assets != [] {
      var front, last := assets[..|assets| - 1], assets[|assets| - 1];
      NoneTwice(front);
      assert Ids(assets) == Ids(front) + {last};
      assert forall i | 0 <= i < |front| :: front[i] == assets[i];
    }
  }

  // Why a membership command is refused, the limit of Collections apart.
  lemma RefusedMeans(t: Tables, c: Id, assets: seq<Id>, member: bool)
    ensures var r := Commands.SetMembership(t, c, assets, member);
      && (r == Err(CollectionNotFound) <==> Listing(assets) && c !in t.collections)
      && (r == Err(MembershipInvalid) <==> !Listing(assets) || (c in t.collections && exists a <- assets :: a !in t.assets))
  {
    NoneTwice(assets);
  }

  // Each of the Assets is as asked, all other memberships are as they were, and
  // the revisions of the Collection and the Library have moved if any was not.
  ghost predicate Joined(before: Tables, after: Tables, c: Id, assets: seq<Id>, member: bool) {
    && (forall a <- assets :: (c, a) in after.members <==> member)
    && (forall m: (Id, Id) | m.0 != c || m.1 !in assets :: m in after.members <==> m in before.members)
    && c in before.collections && after.collections.Keys == before.collections.Keys
    && after.collections[c].name == before.collections[c].name
    && (forall k <- before.collections | k != c :: after.collections[k] == before.collections[k])
    && (var moved := if exists a <- assets :: ((c, a) in before.members) != member then 1 else 0;
        after.collections[c].revision == before.collections[c].revision + moved && after.revision == before.revision + moved)
    && after == before.(members := after.members, collections := after.collections, revision := after.revision)
  }

  lemma JoinedMeans(t: Tables, c: Id, assets: seq<Id>, member: bool)
    requires Stored(t) && Commands.SetMembership(t, c, assets, member).Ok?
    ensures Joined(t, Commands.SetMembership(t, c, assets, member).value, c, assets, member)
    ensures Stored(Commands.SetMembership(t, c, assets, member).value)
  {
    var affected := Affected(t, c, Ids(assets), member);
    assert forall a: Id :: (c, a) in affected <==> a in assets && ((c, a) in t.members) != member;
    assert affected == {} <==> !exists a <- assets :: ((c, a) in t.members) != member by {
      if exists a <- assets :: ((c, a) in t.members) != member {
        var a :| a in assets && ((c, a) in t.members) != member;
        assert (c, a) in affected;
      }
    }
    hide Affected;
  }

  // One scan of the Root has started, under a job of its own, and nothing else
  // has changed.
  ghost predicate Started(before: Tables, after: Tables, root: Id, job: Id) {
    && job !in before.jobs && after.jobs == before.jobs[job := Job(InitialScan, root, Running, 0, 0)]
    && after.roots.Keys == before.roots.Keys + {root} && after.roots[root].state == Scanning
    && (root in before.roots ==> after.roots[root].linked == before.roots[root].linked)
    && (forall k <- before.roots | k != root :: after.roots[k] == before.roots[k])
    && after.revision == before.revision + 1
    && after == before.(jobs := after.jobs, roots := after.roots, revision := after.revision, drawn := after.drawn)
  }

  lemma StartMeans(t: Tables, root: Id, row: Root, job: Id)
    requires Stored(t) && job >= t.drawn && root <= job && (root in t.roots ==> row.linked == t.roots[root].linked)
    ensures Started(t, StartScan(t, root, row, job), root, job) && Stored(StartScan(t, root, row, job))
    ensures var r := StartScan(t, root, row, job); r.roots.Keys == t.roots.Keys + {root} && r.roots[root] == row.(state := Scanning)
  {
  }

  lemma NotDrawn(t: Tables)
    requires Stored(t)
    ensures t.drawn !in t.roots && forall k <- t.roots :: k < t.drawn
  {
  }

  lemma AddMeans(t: Tables, found: Option<Id>, display: string)
    requires Stored(t) && Commands.AddRoot(t, found, display).Ok?
    ensures var r, root := Commands.AddRoot(t, found, display).value, if found.Some? then found.value else t.drawn;
      && Started(t, r, root, if found.Some? then t.drawn else t.drawn + 1) && Stored(r)
      && (found.None? ==> root !in t.roots)
      && r.roots.Keys == t.roots.Keys + {root} && r.roots[root].display == display && (found.None? ==> r.roots[root].linked)
  {
    hide Started, Stored, Busy, StartScan, SameRows;
    NotDrawn(t);
    match found
    case Some(root) => StartMeans(t, root, t.roots[root].(display := display), t.drawn);
    case None => StartMeans(t, t.drawn, Root(display, true, Scanning), t.drawn + 1);
  }

  lemma ScanMeans(t: Tables, root: Id, authorized: set<Id>)
    requires Stored(t) && Commands.ScanRoot(t, root, authorized).Ok?
    ensures Started(t, Commands.ScanRoot(t, root, authorized).value, root, t.drawn)
    ensures Stored(Commands.ScanRoot(t, root, authorized).value)
  {
    assert forall k <- t.roots :: k < t.drawn;
    hide Started, Stored, Busy;
    StartMeans(t, root, t.roots[root], t.drawn);
  }

  // One more Collection, without members.
  ghost predicate Created(before: Tables, after: Tables, c: Id, name: string) {
    && c !in before.collections && after.collections == before.collections[c := Collection(name, 0)]
    && (forall m <- after.members :: m.0 != c) && after.revision == before.revision + 1
    && after == before.(collections := after.collections, revision := after.revision, drawn := after.drawn)
  }

  lemma CreateMeans(t: Tables, name: string)
    requires Stored(t) && Commands.CreateCollection(t, name).Ok?
    ensures Created(t, Commands.CreateCollection(t, name).value, t.drawn, name)
    ensures Stored(Commands.CreateCollection(t, name).value)
  {
    hide NameTaken;
    assert t.drawn !in t.collections;
  }

  // The Collection and its memberships are gone, and nothing else.
  ghost predicate Deleted(before: Tables, after: Tables, c: Id) {
    && after.collections.Keys == before.collections.Keys - {c}
    && (forall k <- after.collections :: after.collections[k] == before.collections[k])
    && after.members == (set m | m in before.members && m.0 != c) && after.revision == before.revision + 1
    && after == before.(collections := after.collections, members := after.members, revision := after.revision)
  }

  lemma DeleteMeans(t: Tables, c: Id)
    requires Stored(t) && Commands.DeleteCollection(t, c).Ok?
    ensures Deleted(t, Commands.DeleteCollection(t, c).value, c) && Stored(Commands.DeleteCollection(t, c).value)
  {
  }

  // The Asset carries what the patch sets and otherwise what it had, one revision on.
  ghost predicate Revised(before: Asset, patch: Patch, after: Asset) {
    && after.revision == before.revision + 1
    && TextRevised(before.title, patch.title, after.title) && TextRevised(before.note, patch.note, after.note)
    && after.review == (match patch.review case Some(x) => x case None => before.review)
    && after.tags == (match patch.tags case Some(x) => x case None => before.tags)
    && after.usedIn == (match patch.usedIn case Some(x) => x case None => before.usedIn)
  }

  ghost predicate TextRevised(before: Option<string>, patch: TextPatch, after: Option<string>) {
    && (patch.Same? ==> after == before) && (patch.Clear? ==> after.None?) && (patch.Set? ==> after == Some(patch.text))
  }

  // The memberships after the affected rows were inserted or deleted.
  function Moved(members: set<(Id, Id)>, affected: set<(Id, Id)>, member: bool): set<(Id, Id)> {
    if member then members + affected else members - affected
  }

  lemma NoneAffected(t: Tables, c: Id, member: bool)
    ensures Affected(t, c, {}, member) == {} && Moved(t.members, {}, member) == t.members
  {
  }

  lemma MoveOne(members: set<(Id, Id)>, affected: set<(Id, Id)>, x: (Id, Id), member: bool)
    requires x !in affected
    ensures (x in Moved(members, affected, member)) == (x in members)
    ensures Moved(members, affected + {x}, member)
         == if member then Moved(members, affected, member) + {x} else Moved(members, affected, member) - {x}
    ensures affected + {} == affected && |affected + {x}| == |affected| + 1
  {
  }

  lemma OneAffected(t: Tables, c: Id, done: set<Id>, a: Id, member: bool)
    requires a !in done
    ensures Affected(t, c, done + {a}, member)
         == Affected(t, c, done, member) + if ((c, a) in t.members) != member then {(c, a)} else {}
    ensures (c, a) !in Affected(t, c, done, member)
  {
  }
}
