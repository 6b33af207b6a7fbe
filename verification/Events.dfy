/**
 Coalescing workspace events into invalidation batches: nothing is lost or
 invented, and nothing waits longer than the maximum.
 */
module Events {
  import opened Wrappers

  const EVENT_QUIET_WINDOW_MS := 80
  const EVENT_MAX_WAIT_MS := 400

  type AssetId = nat

  datatype WorkspaceEvent =
    | AssetsInserted
    | ScanProgressChanged(terminal: bool)
    | RootStateChanged(scanning: bool)
    | JobUpdated(finished: bool)
    | AssetUpdated(asset: AssetId)
    | CollectionsChanged
    | Unrelated

  // What has to be refreshed; all details, or those of some Assets.
  datatype Effect = Effect(assets: bool, roots: bool, collections: bool, allDetails: bool, details: set<AssetId>) {
    function Union(other: Effect): Effect {
      Effect(assets || other.assets, roots || other.roots, collections || other.collections,
             allDetails || other.allDetails, details + other.details)
    }

    predicate Empty() { !assets && !roots && !collections && !allDetails && details == {} }
  }

  function Nothing(): Effect { Effect(false, false, false, false, {}) }

  function EffectOf(e: WorkspaceEvent): Effect {
    match e
    case AssetsInserted => Nothing().(assets := true)
    case ScanProgressChanged(terminal) => Nothing().(roots := true, assets := terminal)
    case RootStateChanged(_) => Nothing().(roots := true)
    case JobUpdated(finished) => Nothing().(roots := true, assets := finished)
    case AssetUpdated(asset) => Nothing().(assets := true, details := {asset})
    case CollectionsChanged => Nothing().(assets := true, collections := true, allDetails := true)
    case Unrelated => Nothing()
  }

  predicate Urgent(e: WorkspaceEvent) {
    match e
    case ScanProgressChanged(terminal) => terminal
    case RootStateChanged(scanning) => !scanning
    case JobUpdated(finished) => finished
    case AssetUpdated(_) => true
    case CollectionsChanged => true
    case _ => false
  }

  // What is published: no details, all of them (null), or a list.
  datatype Batch = Batch(assets: bool, roots: bool, collections: bool, details: Option<Option<set<AssetId>>>) {
    function Meaning(): Effect {
      Effect(assets, roots, collections, details == Some(None),
             if details.Some? && details.value.Some? then details.value.value else {})
    }
  }

  function All(batches: seq<Batch>): Effect {
    if batches == [] then Nothing() else All(batches[..|batches| - 1]).Union(batches[|batches| - 1].Meaning())
  }

  lemma AllSnoc(batches: seq<Batch>, b: Batch)
    ensures All(batches + [b]) == All(batches).Union(b.Meaning())
  {
    assert (batches + [b])[..|batches|] == batches;
  }

  lemma UnionNothing(e: Effect)
    ensures e.Union(Nothing()) == e
  {
    assert e.details + {} == e.details;
  }

  lemma UnionAssociates(a: Effect, b: Effect, c: Effect)
    ensures a.Union(b).Union(c) == a.Union(b.Union(c))
  {
    assert a.details + b.details + c.details == a.details + (b.details + c.details);
  }

  lemma SuffixGrows(s: seq<Batch>, tail: seq<Batch>, b: Batch)
    requires |tail| <= |s| && s[|s| - |tail|..] == tail
    ensures (s + [b])[|s + [b]| - |tail + [b]|..] == tail + [b]
  {
  }

  class Invalidator {
    var pending: Effect
    var quietTimer: Option<nat>
    var maximumTimer: Option<nat>
    var now: nat
    var published: seq<Batch>

    // Since the last reset: the effects accepted and the batches published; and
    // since when something is pending.
    ghost var accepted: Effect
    ghost var recent: seq<Batch>
    ghost var since: nat

    // Published and pending together are exactly what was accepted.
    ghost predicate Conserved()
      reads this
    {
      && |recent| <= |published| && published[|published| - |recent|..] == recent
      && All(recent).Union(pending) == accepted
    }

    // Timers run exactly while something is pending, and one of them is due no
    // later than the maximum wait after it became so.
    ghost predicate Timed()
      reads this
    {
      && (pending.Empty() <==> maximumTimer.None?)
      && (pending.Empty() <==> quietTimer.None?)
      && (!pending.Empty() ==>
            && maximumTimer == Some(since + 400)
            && since <= now <= quietTimer.value <= now + EVENT_QUIET_WINDOW_MS
            && now <= maximumTimer.value)
    }

    ghost predicate Valid()
      reads this
    {
      Conserved() && Timed() && !pending.allDetails && pending.details == {}
    }

    constructor ()
      ensures Valid() && published == [] && accepted == Nothing()
    {
      pending, quietTimer, maximumTimer, now, published := Nothing(), None, None, 0, [];
      accepted, since, recent := Nothing(), 0, [];
      new;
      assert {} + {} == pending.details;
    }

    method ClearTimers()
      modifies this`quietTimer, this`maximumTimer
      ensures quietTimer.None? && maximumTimer.None?
    {
      quietTimer, maximumTimer := None, None;
    }

    method Schedule()
      modifies this`quietTimer, this`maximumTimer
      ensures quietTimer == Some(now + 80)
      ensures maximumTimer == if old(maximumTimer).None? then Some(now + 400) else old(maximumTimer)
    {
      quietTimer := Some(now + EVENT_QUIET_WINDOW_MS);
      if maximumTimer.None? {
        maximumTimer := Some(now + EVENT_MAX_WAIT_MS);
      }
    }

    // Publish what is pending, if anything.
    method Flush()
      requires Conserved() && !(pending.allDetails && pending.details != {})
      modifies this`quietTimer, this`maximumTimer, this`pending, this`published, this`recent
      ensures Conserved() && pending == Nothing()
      ensures old(pending).Empty() ==> published == old(published) && quietTimer == old(quietTimer) && maximumTimer == old(maximumTimer)
      ensures !old(pending).Empty() ==>
        && (exists b :: published == old(published) + [b] && b.Meaning() == old(pending))
        && quietTimer.None? && maximumTimer.None?
    {
      if pending.Empty() {
        return;
      }
      ClearTimers();
      var details := if pending.allDetails then Some(None) else if pending.details != {} then Some(Some(pending.details)) else None;
      var batch := Batch(pending.assets, pending.roots, pending.collections, details);
      AllSnoc(recent, batch);
      assert batch.Meaning() == pending;
      UnionNothing(All(recent).Union(pending));
      SuffixGrows(published, recent, batch);
      pending := Nothing();
      published := published + [batch];
      recent := recent + [batch];
    }

    method Accept(e: WorkspaceEvent)
      requires Valid()
      modifies this
      ensures Valid() && now == old(now)
      ensures accepted == old(accepted).Union(EffectOf(e))
      // What an editor does, and what ends something, is published at once; an
      // insertion, progress or a Root that starts scanning waits.
      ensures
        || e.AssetUpdated? || e.CollectionsChanged? || (e.JobUpdated? && e.finished)
        || (e.ScanProgressChanged? && e.terminal) || (e.RootStateChanged? && !e.scanning) ==>
        pending == Nothing() && exists b :: published == old(published) + [b] && b.Meaning() == old(pending).Union(EffectOf(e))
      ensures
        || e.Unrelated? || e.AssetsInserted? || (e.JobUpdated? && !e.finished)
        || (e.ScanProgressChanged? && !e.terminal) || (e.RootStateChanged? && e.scanning) ==>
        published == old(published) && pending == old(pending).Union(EffectOf(e))
    {
      UnionAssociates(All(recent), pending, EffectOf(e));
      if e.Unrelated? {
        UnionNothing(accepted);
        UnionNothing(pending);
        return;
      }
      if pending.Empty() {
        since := now;
      }
      pending := pending.Union(EffectOf(e));
      accepted := accepted.Union(EffectOf(e));
      if Urgent(e) {
        Flush();
      } else {
        Schedule();
      }
    }

    // Time passes, but not beyond a timer that is due.
    method Wait(until: nat)
      requires Valid() && now <= until
      requires (quietTimer.Some? ==> until <= quietTimer.value) && (maximumTimer.Some? ==> until <= maximumTimer.value)
      modifies this`now
      ensures Valid() && now == until
    {
      now := until;
    }

    // A timer is due: everything pending is published.
    method Fire()
      requires Valid() && (quietTimer == Some(now) || maximumTimer == Some(now))
      modifies this`quietTimer, this`maximumTimer, this`pending, this`published, this`recent
      ensures Valid() && pending == Nothing()
      ensures exists b :: published == old(published) + [b] && b.Meaning() == old(pending)
      ensures now <= since + 400
    {
      Flush();
    }

    method Reset()
      requires Valid()
      modifies this
      ensures Valid() && accepted == Nothing() && pending == Nothing() && published == old(published)
    {
      ClearTimers();
      pending := Nothing();
      accepted, recent := Nothing(), [];
      UnionNothing(Nothing());
    }
  }

  /** The counters that views watch. */

  datatype Invalidations = Invalidations(assets: nat, roots: nat, collections: nat, detailRevision: nat, detailAssets: Option<set<AssetId>>)

  function Apply(current: Invalidations, batch: Batch): Invalidations {
    Invalidations(current.assets + (if batch.assets then 1 else 0), current.roots + (if batch.roots then 1 else 0),
                  current.collections + (if batch.collections then 1 else 0),
                  current.detailRevision + (if batch.details.Some? then 1 else 0),
                  if batch.details.Some? then batch.details.value else current.detailAssets)
  }

  function ApplyAll(current: Invalidations, batches: seq<Batch>): Invalidations {
    if batches == [] then current else Apply(ApplyAll(current, batches[..|batches| - 1]), batches[|batches| - 1])
  }

  lemma EmptyUnion(a: set<AssetId>, b: set<AssetId>)
    ensures a + b == {} <==> a == {} && b == {}
  {
    assert a <= a + b && b <= a + b;
  }

  // A counter moves exactly if some accepted effect concerned it.
  lemma {:induction false} CountersMove(current: Invalidations, batches: seq<Batch>)
    requires forall b <- batches :: b.details != Some(Some({}))
    ensures var r, e := ApplyAll(current, batches), All(batches);
      && (r.assets > current.assets <==> e.assets) && (r.roots > current.roots <==> e.roots)
      && (r.collections > current.collections <==> e.collections)
      && (r.detailRevision > current.detailRevision <==> e.allDetails || e.details != {})
      && r.assets >= current.assets && r.roots >= current.roots && r.collections >= current.collections
      && r.detailRevision >= current.detailRevision
  {
    if batches != [] {
      CountersMove(current, batches[..|batches| - 1]);
      EmptyUnion(All(batches[..|batches| - 1]).details, batches[|batches| - 1].Meaning().details);
    }
  }

  // Which counters one event moves, and which details are to be read again.
  lemma EventMoves(current: Invalidations, e: WorkspaceEvent, b: Batch)
    requires b.Meaning() == EffectOf(e) && b.details != Some(Some({}))
    ensures var r := Apply(current, b);
      && (r.assets > current.assets <==>
            e.AssetsInserted? || e.AssetUpdated? || e.CollectionsChanged? || (e.JobUpdated? && e.finished) || (e.ScanProgressChanged? && e.terminal))
      && (r.roots > current.roots <==> e.ScanProgressChanged? || e.RootStateChanged? || e.JobUpdated?)
      && (r.collections > current.collections <==> e.CollectionsChanged?)
      && (r.detailRevision > current.detailRevision <==> e.AssetUpdated? || e.CollectionsChanged?)
      && (e.AssetUpdated? ==> r.detailAssets == Some({e.asset})) && (e.CollectionsChanged? ==> r.detailAssets.None?)
      && (!e.AssetUpdated? && !e.CollectionsChanged? ==> r.detailAssets == current.detailAssets)
  {
  }
}
