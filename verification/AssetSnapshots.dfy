/**
 The ordered Asset query across transactions: within one session an equal
 revision means an equal result, so pages that were read one by one, with
 anything in between, join to one result.
 */
module AssetSnapshots {
  import opened Wrappers
  import opened Tables
  import opened ScanOutcome
  import opened Commands
  import opened CanonicalJson
  import opened CanonicalPages
  import opened AssetPages
  import History

  // Everything that the query can see: all but the job ledger.
  function Seen(t: Tables): Tables { t.(jobs := map[], drawn := 0) }

  // The query sees the same exactly if every table but the job ledger is the same.
  lemma SeenAll(a: Tables, b: Tables)
    ensures Seen(a) == Seen(b) <==>
      && a.library == b.library && a.roots == b.roots && a.locations == b.locations
      && a.sources == b.sources && a.revisions == b.revisions && a.origins == b.origins
      && a.assets == b.assets && a.collections == b.collections && a.members == b.members
      && a.revision == b.revision
  {
  }

  /** Every transaction but reopening that changes something advances the revision. */

  lemma ScanSeen(s: History.State, a: History.Action)
    requires History.Inv(s) && (a.Flushes? || a.MarksUnseen? || a.Finishes? || a.Fails?)
    ensures History.Step(s, a).t == s.t || History.Step(s, a).t.revision == s.t.revision + 1
  {
    hide All;
    if a.Flushes? && a.flush in s.scans {
      AllKeepsCuration(s.t, s.scans[a.flush], a.cs, a.gone);
    }
  }

  lemma LedgerSeen(s: History.State, a: History.Action)
    requires History.Inv(s) && (History.Rendering(a) || a.Vanishes?)
    ensures Seen(History.Step(s, a).t) == Seen(s.t)
  {
    hide History.Inv, Pruned;
  }

  lemma RootSeen(s: History.State, a: History.Action)
    requires History.Inv(s) && (a.AddsRoot? || a.BindsRoot? || a.ScansRoot?)
    ensures History.Step(s, a).t == s.t || History.Step(s, a).t.revision == s.t.revision + 1
  {
    hide History.Inv, Busy, StartScan;
    match a
    case AddsRoot(Some(root), display) =>
      if root in s.t.roots { StartBumps(s.t, root, s.t.roots[root].(display := display), s.t.drawn); }
    case AddsRoot(None, display) => StartBumps(s.t, s.t.drawn, Root(display, true, Scanning), s.t.drawn + 1);
    case BindsRoot(_) =>
    case ScansRoot(root, _) =>
      if root in s.t.roots { StartBumps(s.t, root, s.t.roots[root], s.t.drawn); }
  }

  lemma StartBumps(t: Tables, root: Id, row: Root, job: Id)
    ensures StartScan(t, root, row, job).revision == t.revision + 1
  {
  }

  lemma SeenStep(s: History.State, a: History.Action)
    requires History.Inv(s) && !a.Reopens?
    ensures Seen(History.Step(s, a).t) == Seen(s.t) || History.Step(s, a).t.revision == s.t.revision + 1
  {
    if a.Flushes? || a.MarksUnseen? || a.Finishes? || a.Fails? {
      ScanSeen(s, a);
    } else if History.Rendering(a) || a.Vanishes? {
      LedgerSeen(s, a);
    } else if a.AddsRoot? || a.BindsRoot? || a.ScansRoot? {
      RootSeen(s, a);
    } else {
      hide Seen, History.Inv, NameTaken, Pruned, Affected, CollectionsOf;
    }
  }

  lemma {:induction false} SeenRun(s: History.State, actions: seq<History.Action>)
    requires History.Inv(s) && forall a <- actions :: !a.Reopens?
    ensures s.t.revision <= History.Run(s, actions).t.revision
    ensures History.Run(s, actions).t.revision == s.t.revision ==> Seen(History.Run(s, actions).t) == Seen(s.t)
    decreases |actions|
  {
    hide History.Inv, History.Step;
    if actions != [] {
      SeenRun(s, actions[..|actions| - 1]);
      SeenStep(History.Run(s, actions[..|actions| - 1]), actions[|actions| - 1]);
    }
  }

  // Reopening is the exception: it takes every linked Root's authority away
  // without advancing the revision.  At an equal revision nothing that the query
  // sees has changed exactly if no linked Root still had one.
  lemma ReopenSeen(t: Tables)
    ensures Recovery(t, OPENING).revision == t.revision <==> !Stale(t)
    ensures !Stale(t) ==>
      (Seen(Recovery(t, OPENING)) == Seen(t)
       <==> forall k <- t.roots :: t.roots[k].linked ==> t.roots[k].state == NeedsPermission || t.roots[k].state == Errored)
  {
    if !Stale(t) {
      var r := Recovery(t, OPENING);
      if forall k <- t.roots :: t.roots[k].linked ==> t.roots[k].state == NeedsPermission || t.roots[k].state == Errored {
        assert r.roots == t.roots;
      }
      if r.roots == t.roots {
        forall k <- t.roots | t.roots[k].linked ensures t.roots[k].state == NeedsPermission || t.roots[k].state == Errored {
          assert r.roots[k] == t.roots[k];
        }
      }
    }
  }

  /** Pages read one after the other. */

  // The result of one query as a function of what it sees; there is none when
  // the Root or Collection it filters by does not exist.
  type Query = Tables -> Option<View>

  // Request k reads `views[k]` in state `states[k]`; between requests the
  // session runs anything but reopening.
  ghost predicate Watched(query: Query, states: seq<History.State>, between: seq<seq<History.Action>>, views: seq<Option<View>>) {
    && |states| == |views| == |between| + 1
    && (forall k | 0 <= k < |states| :: History.Inv(states[k]))
    && (forall k | 0 <= k < |between| :: states[k + 1] == History.Run(states[k], between[k]))
    && (forall k, a | 0 <= k < |between| && a in between[k] :: !a.Reopens?)
    && (forall k | 0 <= k < |views| :: views[k] == query(Seen(states[k].t)))
    && (forall k | 0 <= k < |views| && views[k].Some? :: views[k].value.revision == states[k].t.revision)
  }

  // A later view at the first revision is the first view.
  lemma {:induction false} SameView(query: Query, states: seq<History.State>, between: seq<seq<History.Action>>,
                                    views: seq<Option<View>>, k: nat)
    requires Watched(query, states, between, views) && k < |views|
    ensures |states| == |views| && states[0].t.revision <= states[k].t.revision
    ensures states[k].t.revision == states[0].t.revision ==> views[k] == views[0] && Seen(states[k].t) == Seen(states[0].t)
  {
    hide History.Inv, History.Run;
    if k > 0 {
      SameView(query, states, between, views, k - 1);
      SeenRun(states[k - 1], between[k - 1]);
    }
  }

  ghost predicate SomeMoved(states: seq<History.State>) {
    exists k :: 0 < k < |states| && states[k].t.revision != states[0].t.revision
  }

  // Following next offsets under the first page's revision, with anything in
  // between, either yields the whole ordered result that the first page was a
  // part of, or tells that the revision moved, that a filter is gone, or that a
  // row is too large.  After the first page a filter is gone only if the revision
  // moved.
  method FollowOffsets(query: Query, views: seq<Option<View>>, limit: nat,
                       ghost states: seq<History.State>, ghost between: seq<seq<History.Action>>)
    returns (all: seq<Value>, error: Option<QueryError>)
    requires Watched(query, states, between, views)
    requires forall v <- views | v.Some? :: Queryable(v.value)
    requires views[0].Some? ==> |views| > |views[0].value.ordered| && |views[0].value.ordered| <= I64_MAX
    requires 0 < limit <= MAX_PAGE_SIZE
    ensures views[0].None? ==> error == Some(FilterGone) && all == []
    ensures error.None? ==> views[0].Some? && all == views[0].value.ordered
    ensures error.Some? && views[0].Some? ==>
      && |all| <= |views[0].value.ordered| && all == views[0].value.ordered[..|all|]
      && if error.value.SnapshotChanged? || error.value.FilterGone? then SomeMoved(states) else error == Some(ResultTooLarge)
  {
    hide Fits, Queryable, First, Unbounded, Window, FrameSize, Seen, History.Inv, History.Run;
    all, error := [], None;
    if views[0].None? {
      return [], Some(FilterGone);
    }
    ghost var ordered := views[0].value.ordered;
    var first := views[0].value.revision;
    assert first == states[0].t.revision && |states| == |views|;
    hide Watched;
    var offset, k := 0, 0;
    while true
      invariant offset == |all| <= |ordered| && all == ordered[..offset]
      invariant k <= offset && (k > 0 ==> offset < |ordered|)
      decreases |ordered| - offset
    {
      assert views[k] in views;
      SameView(query, states, between, views, k);
      if views[k].None? {
        assert states[k].t.revision != states[0].t.revision;
        return all, Some(FilterGone);
      }
      var r := QueryAssets(views[k].value, offset, limit, if k == 0 then None else Some(first));
      SeenAt(query, states, between, views, k);
      if r.Err? {
        assert r.error != PageTooLarge && r.error != OffsetOutside;
        return all, Some(r.error);
      }
      var n := |r.value.items|;
      assert ordered[..offset] + ordered[offset..offset + n] == ordered[..offset + n];
      all := all + r.value.items;
      offset := offset + n;
      k := k + 1;
      if r.value.nextOffset.None? {
        return;
      }
    }
  }

  lemma SeenAt(query: Query, states: seq<History.State>, between: seq<seq<History.Action>>, views: seq<Option<View>>, k: nat)
    requires Watched(query, states, between, views) && k < |views| && views[k].Some?
    ensures views[k].value.revision == states[k].t.revision
  {
    hide History.Inv, History.Run;
  }
}
