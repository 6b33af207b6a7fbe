/**
 Edits of one Asset over every run: none overwrites another that its author had
 not seen.
 */
module EditOrder {
  import opened Wrappers
  import opened Tables
  import opened ScanOutcome
  import opened Commands
  import opened History

  // Only an edit changes an Asset, and then its revision by one.
  ghost predicate Moves(before: map<Id, Asset>, after: map<Id, Asset>) {
    forall k <- before :: k in after && (after[k] == before[k] || after[k].revision == before[k].revision + 1)
  }

  lemma StaysPut(assets: map<Id, Asset>)
    ensures Moves(assets, assets)
  {
  }

  lemma ScanMoves(s: State, a: Action)
    requires Inv(s) && OfScan(a)
    ensures Moves(s.t.assets, Step(s, a).t.assets)
  {
    hide Inv, Consistent, KeepsIdentity, All;
    StaysPut(s.t.assets);
    if a.Flushes? && a.flush in s.scans {
      LiveTables(s, a.flush);
      AllKeepsCuration(s.t, s.scans[a.flush], a.cs, a.gone);
    }
  }

  lemma LiveTables(s: State, job: Id)
    requires Inv(s) && job in s.scans
    ensures Consistent(s.t) && s.scans[job] in s.t.roots
  {
    hide Consistent, WithinLimits;
  }

  lemma RootMoves(s: State, a: Action)
    requires OfRoot(a)
    ensures RootStep(s, a).t.assets == s.t.assets
  {
    hide AddRoot, BindRoot, ScanRoot, SameRows;
  }

  lemma RenditionMoves(s: State, a: Action)
    requires Rendering(a)
    ensures RenditionStep(s, a).t.assets == s.t.assets
  {
    hide Pruned;
  }

  lemma CollectionMoves(s: State, a: Action)
    requires !a.Edits?
    ensures EditStep(s, a).t.assets == s.t.assets
  {
    hide CreateCollection, RenameCollection, DeleteCollection, SetMembership, UpdateAsset, SameRows;
  }

  lemma StepMoves(s: State, a: Action)
    requires Inv(s)
    ensures Moves(s.t.assets, Step(s, a).t.assets)
  {
    hide Inv, ScanStep, RootStep, RenditionStep;
    StaysPut(s.t.assets);
    if OfScan(a) {
      ScanMoves(s, a);
    } else if !a.Edits? {
      hide Moves, EditStep;
      if OfRoot(a) { RootMoves(s, a); }
      if Rendering(a) { RenditionMoves(s, a); }
      CollectionMoves(s, a);
    }
  }

  // An Asset's revision never falls, and while it stands the Asset stands.
  lemma {:induction false} RunMoves(s: State, actions: seq<Action>, asset: Id)
    requires Inv(s) && asset in s.t.assets
    ensures asset in Run(s, actions).t.assets
    ensures s.t.assets[asset].revision <= Run(s, actions).t.assets[asset].revision
    ensures Run(s, actions).t.assets[asset].revision == s.t.assets[asset].revision
        ==> Run(s, actions).t.assets[asset] == s.t.assets[asset]
    decreases |actions|
  {
    hide Inv, Step;
    if actions != [] {
      RunMoves(s, actions[..|actions| - 1], asset);
      StepMoves(Run(s, actions[..|actions| - 1]), actions[|actions| - 1]);
    }
  }

  // The Library after an accepted edit, which is a step like any other.
  ghost function Edited(s: State, asset: Id, expected: nat, patch: Patch): (r: State)
    requires Inv(s) && UpdateAsset(s.t, asset, expected, patch).Ok?
    ensures Inv(r) && r.t == UpdateAsset(s.t, asset, expected, patch).value
  {
    StepKeeps(s, Edits(asset, expected, patch));
    Step(s, Edits(asset, expected, patch))
  }

  // After an accepted edit, whatever runs, another edit that was made on the same
  // revision is refused; one that is accepted was made on the Asset as it stands.
  lemma NoLostUpdate(s: State, asset: Id, expected: nat, patch: Patch, actions: seq<Action>, other: Patch)
    requires Inv(s) && UpdateAsset(s.t, asset, expected, patch).Ok?
    ensures var later := Run(Edited(s, asset, expected, patch), actions).t;
      && asset in later.assets
      && UpdateAsset(later, asset, expected, other) == Err(RevisionConflict(expected, later.assets[asset].revision))
  {
    hide Inv;
    RunMoves(Edited(s, asset, expected, patch), actions, asset);
  }
}
