/**
 What a completed scan says about a file tree that stays fixed: the catalogue's
 picture of the Root is the tree, read one path at a time.
 */
module ScanFidelity {
  import opened Wrappers
  import opened Tables
  import opened Reconcile
  import opened ScanOutcome
  import opened Walk
  import opened ScanRun
  import opened History
  import opened Interleaving

  /** An independent definition: the state the tree gives one path. */

  function LeafState(node: Node): LocationState {
    match node
    case File(_, Accepted(facts)) => if facts.readable then Present else Unreadable
    case File(_, Unstable) => Unreadable
    case File(_, Faulted(Denied)) => PermissionDenied
    case FileShut(_, Denied) => PermissionDenied
    case _ => Missing
  }

  predicate Refuses(node: Node) {
    node == Shut(node.name, Denied) || node == Unlisted(node.name, Denied)
  }

  // Follow the path from the Root: a directory that cannot be read hides
  // everything from it down.
  function TreeState(node: Node, path: Path): LocationState
    decreases |path|
  {
    if Refuses(node) then PermissionDenied
    else if path == [] then LeafState(node)
    else
      match Lookup(node, path[..1])
      case Some(child) => TreeState(child, path[1..])
      case None => Missing
  }

  /** The three projections of the findings. */

  lemma FrontApart(fs: seq<Finding>)
    requires Apart(fs) && fs != []
    ensures Apart(fs[..|fs| - 1]) && fs == fs[..|fs| - 1] + [fs[|fs| - 1]]
    ensures forall f <- fs[..|fs| - 1] :: f.Where() != fs[|fs| - 1].Where()
  {
  }

  lemma {:induction false} NotesProject(fs: seq<Finding>)
    requires Apart(fs)
    ensures forall p, s :: Noted(p, s) in fs <==> p in NotesOf(fs) && NotesOf(fs)[p] == s
  {
    if fs != [] {
      FrontApart(fs);
      var front, last := fs[..|fs| - 1], fs[|fs| - 1];
      NotesProject(front);
      forall p, s ensures Noted(p, s) in fs <==> p in NotesOf(fs) && NotesOf(fs)[p] == s {
        assert Noted(p, s) in fs <==> Noted(p, s) in front || last == Noted(p, s);
        if last.Noted? && last.at == p {
          assert Noted(p, s) in front ==> Noted(p, s).Where() != last.Where();
        }
      }
    }
  }

  lemma {:induction false} SealedProject(fs: seq<Finding>)
    ensures forall p :: SealedOff(p) in fs <==> p in SealedOf(fs)
  {
    if fs != [] {
      var front, last := fs[..|fs| - 1], fs[|fs| - 1];
      SealedProject(front);
      assert fs == front + [last];
    }
  }

  lemma {:induction false} CandidatesProject(fs: seq<Finding>)
    requires Apart(fs)
    ensures forall c :: Offered(c) in fs <==> c in CandidatesOf(fs)
    ensures DistinctPaths(CandidatesOf(fs))
  {
    if fs != [] {
      FrontApart(fs);
      var front, last := fs[..|fs| - 1], fs[|fs| - 1];
      CandidatesProject(front);
      assert forall c :: Offered(c) in fs <==> Offered(c) in front || last == Offered(c);
      if last.Offered? {
        forall c <- CandidatesOf(front) ensures c.path != last.candidate.path {
          assert Offered(c) in front;
          assert Offered(c).Where() != last.Where();
        }
      }
    }
  }

  /** The walk and the tree agree path by path. */

  ghost predicate Hidden(tree: Node, path: Path, k: int) {
    0 <= k <= |path| && Lookup(tree, path[..k]).Some? && Refuses(Lookup(tree, path[..k]).value)
  }

  lemma LookupFirst(node: Node, path: Path)
    requires node.Folder? && path != []
    ensures Lookup(node, path) ==
      match Lookup(node, path[..1])
      case Some(child) => Lookup(child, path[1..])
      case None => None
    ensures Lookup(node, path[..1]).Some? ==> Lookup(node, path[..1]).value in node.children
  {
    FirstIn(node.children, path);
  }

  lemma {:induction false} FirstIn(children: seq<Node>, path: Path)
    requires path != []
    ensures LookupIn(children, path) ==
      match LookupIn(children, path[..1])
      case Some(child) => Lookup(child, path[1..])
      case None => None
    ensures LookupIn(children, path[..1]).Some? ==> LookupIn(children, path[..1]).value in children
    decreases |children|
  {
    if children != [] && children[0].name != path[0] {
      FirstIn(children[1..], path);
    }
  }

  // The state of a path: hidden by a directory that refuses, else its own entry's.
  lemma {:induction false} TreeStateByLookup(node: Node, path: Path)
    ensures TreeState(node, path) ==
      if exists k :: Hidden(node, path, k) then PermissionDenied
      else if Lookup(node, path).Some? then LeafState(Lookup(node, path).value) else Missing
    decreases |path|
  {
    if Refuses(node) {
      assert path[..0] == [];
      assert Hidden(node, path, 0);
    } else if path != [] {
      if node.Folder? {
        LookupFirst(node, path);
        match Lookup(node, path[..1])
        case Some(child) =>
          TreeStateByLookup(child, path[1..]);
          HiddenBelow(node, child, path);
        case None =>
          HiddenNowhere(node, path);
      }
    }
  }

  lemma HiddenBelow(node: Node, child: Node, path: Path)
    requires node.Folder? && path != [] && Lookup(node, path[..1]) == Some(child)
    ensures (exists k :: Hidden(node, path, k)) <==> exists k :: Hidden(child, path[1..], k)
  {
    forall k | 1 <= k <= |path| ensures Hidden(node, path, k) <==> Hidden(child, path[1..], k - 1) {
      LookupFirst(node, path[..k]);
      assert path[..k][..1] == path[..1];
      assert path[..k][1..] == path[1..][..k - 1];
    }
    assert path[..0] == [];
    if k :| Hidden(node, path, k) { assert Hidden(child, path[1..], k - 1); }
    if k :| Hidden(child, path[1..], k) { assert Hidden(node, path, k + 1); }
  }

  lemma HiddenNowhere(node: Node, path: Path)
    requires node.Folder? && path != [] && Lookup(node, path[..1]).None?
    ensures !exists k :: Hidden(node, path, k)
  {
    forall k ensures !Hidden(node, path, k) {
      if k == 0 {
        assert path[..0] == [];
      } else if 0 < k <= |path| {
        LookupFirst(node, path[..k]);
        assert path[..k][..1] == path[..1];
      }
    }
  }

  lemma {:induction false} LookupSplit(node: Node, path: Path, k: nat)
    requires k <= |path|
    ensures Lookup(node, path) ==
      match Lookup(node, path[..k])
      case Some(n) => Lookup(n, path[k..])
      case None => None
    decreases k
  {
    if k == 0 {
      assert path[..0] == [] && path[0..] == path;
    } else if node.Folder? {
      LookupFirst(node, path);
      LookupFirst(node, path[..k]);
      assert path[..k][..1] == path[..1] && path[..k][1..] == path[1..][..k - 1] && path[1..][k - 1..] == path[k..];
      if Lookup(node, path[..1]).Some? {
        LookupSplit(Lookup(node, path[..1]).value, path[1..], k - 1);
      }
    }
  }

  // What a walk of a sound tree finds, in terms of looking paths up.
  lemma SealsRefusals(tree: Node, path: Path)
    requires WellNamed(tree) && Sound(tree)
    ensures SealedOff(path) in Survey([], tree) <==> Lookup(tree, path).Some? && Refuses(Lookup(tree, path).value)
  {
    SurveyExact(tree, SealedOff(path));
    assert path[0..] == path;
  }

  lemma NotesLeaves(tree: Node, path: Path, state: LocationState)
    requires WellNamed(tree) && Sound(tree)
    ensures Noted(path, state) in Survey([], tree) <==>
      && Lookup(tree, path).Some?
      && var n := Lookup(tree, path).value;
         (n.File? || n.FileShut?) && Meet(path, n) == Record(Noted(path, state))
  {
    SurveyExact(tree, Noted(path, state));
    assert path[0..] == path;
  }

  lemma OffersFiles(tree: Node, c: Candidate)
    requires WellNamed(tree) && Sound(tree)
    ensures Offered(c) in Survey([], tree) <==>
      Lookup(tree, c.path).Some? && Lookup(tree, c.path).value.File? && Lookup(tree, c.path).value.inspection == Accepted(c.facts)
  {
    SurveyExact(tree, Offered(c));
    assert c.path[0..] == c.path;
  }

  // An accepted file is not below a directory that refuses.
  lemma NotHidden(tree: Node, path: Path)
    requires Lookup(tree, path).Some? && !Refuses(Lookup(tree, path).value)
    ensures !exists k :: Hidden(tree, path, k)
  {
    assert path[..|path|] == path;
    forall k | 0 <= k <= |path| ensures !Hidden(tree, path, k) {
      LookupSplit(tree, path, k);
    }
  }

  lemma FileIsCandidate(tree: Node, path: Path, facts: Facts)
    requires WellNamed(tree) && Sound(tree)
    requires Lookup(tree, path).Some? && Lookup(tree, path).value.File? && Lookup(tree, path).value.inspection == Accepted(facts)
    ensures Candidate(path, facts) in CandidatesOf(Survey([], tree)) && path in PathsOf(CandidatesOf(Survey([], tree)))
  {
    OffersFiles(tree, Candidate(path, facts));
    SurveyApart([], tree);
    CandidatesProject(Survey([], tree));
  }

  // A path without a candidate gets the state the tree gives it.
  lemma UnseenIsTreeState(tree: Node, path: Path)
    requires WellNamed(tree) && Sound(tree)
    requires path !in PathsOf(CandidatesOf(Survey([], tree)))
    ensures UnseenState(path, NotesOf(Survey([], tree)), SealedOf(Survey([], tree))) == TreeState(tree, path)
  {
    hide Survey; hide Sound; hide WellNamed; hide NotesOf; hide SealedOf; hide CandidatesOf; hide TreeState;
    var found := Survey([], tree);
    SurveyApart([], tree);
    NotesProject(found);
    SealedProject(found);
    CandidatesProject(found);
    TreeStateByLookup(tree, path);
    SealedIsHidden(tree, path);
    if path in NotesOf(found) {
      NotesLeaves(tree, path, NotesOf(found)[path]);
      NotHidden(tree, path);
      NotedLeaf(path, Lookup(tree, path).value);
    } else if Lookup(tree, path).Some? {
      var n := Lookup(tree, path).value;
      NotedLeaf(path, n);
      NotesLeaves(tree, path, LeafState(n));
      if n.File? && n.inspection.Accepted? {
        FileIsCandidate(tree, path, n.inspection.facts);
      }
    }
  }

  lemma NotedLeaf(path: Path, n: Node)
    ensures (n.File? || n.FileShut?) && Meet(path, n).Record? && Meet(path, n).finding.Noted? ==>
      Meet(path, n) == Record(Noted(path, LeafState(n))) && !Refuses(n)
    ensures LeafState(n) != Missing ==>
      || (n.File? && n.inspection.Accepted?)
      || ((n.File? || n.FileShut?) && Meet(path, n) == Record(Noted(path, LeafState(n))))
  {
  }

  lemma SealedIsHidden(tree: Node, path: Path)
    requires WellNamed(tree) && Sound(tree)
    ensures Sealed(path, SealedOf(Survey([], tree))) <==> exists k :: Hidden(tree, path, k)
  {
    hide Survey; hide Sound; hide WellNamed; hide Refuses; hide Lookup;
    SealedProject(Survey([], tree));
    forall k | 0 <= k <= |path| ensures path[..k] in SealedOf(Survey([], tree)) <==> Hidden(tree, path, k) {
      SealsRefusals(tree, path[..k]);
    }
    if k :| Hidden(tree, path, k) { assert path[..k] in SealedOf(Survey([], tree)); }
  }

  /** Which trees can be walked to the end. */

  // An answer that ends the walk: an error other than absence or refusal.
  predicate EndsWalk(node: Node) {
    match node
    case Shut(_, kind) => kind == Other
    case Unlisted(_, kind) => kind != Denied
    case File(_, Faulted(kind)) => kind == Loop || kind == Other
    case FileShut(_, kind) => kind == Other
    case _ => false
  }

  // The Root itself has to be a directory, or one that may not be read, or absent.
  predicate RootReads(node: Node) {
    node.Folder? || (node.Unlisted? && node.kind == Denied) || (node.Shut? && (node.kind == NotFound || node.kind == Denied))
  }

  ghost predicate Walkable(tree: Node) {
    RootReads(tree) && forall path | path != [] && Lookup(tree, path).Some? :: !EndsWalk(Lookup(tree, path).value)
  }

  lemma {:induction false} SoundEach(children: seq<Node>)
    ensures SoundBelow(children) <==> forall c <- children :: !Meet([], c).Abort? && (Directory(c) ==> Sound(c))
  {
    hide Sound, Meet;
    if children != [] {
      SoundEach(children[1..]);
      assert forall c :: c in children <==> c == children[0] || c in children[1..];
    }
  }

  // A child below which nothing ends the walk, and that does not end it itself.
  lemma ChildSound(c: Node)
    ensures (!Meet([], c).Abort? && (Directory(c) ==> Sound(c))) <==> !EndsWalk(c) && (c.Folder? ==> Sound(c))
  {
  }

  // No answer that a walk of the tree meets ends it exactly if the Root can be
  // read and no path leads to such an answer.
  lemma {:induction false} SoundExact(tree: Node)
    requires WellNamed(tree)
    ensures Sound(tree) <==> Walkable(tree)
    decreases tree
  {
    if tree.Folder? {
      SoundEach(tree.children);
      forall c <- tree.children ensures c.Folder? ==> (Sound(c) <==> Walkable(c)) {
        ChildSound(c);
        if c.Folder? { SoundExact(c); }
      }
      hide Sound, SoundBelow, Meet, EndsWalk;
      if forall c <- tree.children :: !EndsWalk(c) && (c.Folder? ==> Walkable(c)) {
        forall path | path != [] && Lookup(tree, path).Some? ensures !EndsWalk(Lookup(tree, path).value) {
          var i := LookupInWhere(tree.children, path);
          assert Lookup(tree, path) == Lookup(tree.children[i], path[1..]);
          assert path[1..] == [] ==> Lookup(tree.children[i], path[1..]) == Some(tree.children[i]);
        }
      }
      if Walkable(tree) {
        forall i | 0 <= i < |tree.children| ensures !EndsWalk(tree.children[i]) && (tree.children[i].Folder? ==> Walkable(tree.children[i])) {
          BelowWalkable(tree, i);
        }
      }
      forall c <- tree.children ensures (!Meet([], c).Abort? && (Directory(c) ==> Sound(c))) <==> !EndsWalk(c) && (c.Folder? ==> Walkable(c)) {
        ChildSound(c);
      }
      ListsSound(tree);
    }
  }

  lemma ListsSound(tree: Node)
    requires tree.Folder?
    ensures Sound(tree) <==> SoundBelow(tree.children)
  {
  }

  lemma BelowWalkable(tree: Node, i: nat)
    requires WellNamed(tree) && tree.Folder? && Walkable(tree) && i < |tree.children|
    ensures !EndsWalk(tree.children[i]) && (tree.children[i].Folder? ==> Walkable(tree.children[i]))
  {
    hide EndsWalk;
    var c := tree.children[i];
    LookupInAt(tree.children, [c.name], i);
    assert [c.name][1..] == [];
    assert Lookup(tree, [c.name]) == Some(c);
    forall path | path != [] && Lookup(c, path).Some? ensures !EndsWalk(Lookup(c, path).value) {
      LookupInAt(tree.children, [c.name] + path, i);
      assert ([c.name] + path)[1..] == path;
      assert Lookup(tree, [c.name] + path) == Lookup(c, path);
    }
  }

  /** The main theorems. */

  // Asking whether an old path is absent never says so of a regular file.
  ghost predicate Answers(gone: Path -> bool, tree: Node) {
    forall p | Lookup(tree, p).Some? && Lookup(tree, p).value.File? :: !gone(p)
  }

  // The catalogue's rows of the Root say what a scan of the tree would find.
  ghost predicate Pictures(t: Tables, root: Id, tree: Node)
    requires Linked(t)
  {
    var found := Survey([], tree);
    Settled(t, root, CandidatesOf(found), NotesOf(found), SealedOf(found))
  }

  lemma Presentable(tree: Node, gone: Path -> bool)
    requires WellNamed(tree) && Sound(tree) && Answers(gone, tree)
    ensures DistinctPaths(CandidatesOf(Survey([], tree)))
    ensures forall c :: Offered(c) in Survey([], tree) <==> c in CandidatesOf(Survey([], tree))
    ensures forall c <- CandidatesOf(Survey([], tree)) :: !gone(c.path)
  {
    hide Survey; hide Sound; hide WellNamed; hide Lookup;
    SurveyApart([], tree);
    CandidatesProject(Survey([], tree));
    forall c <- CandidatesOf(Survey([], tree)) ensures !gone(c.path) {
      OffersFiles(tree, c);
    }
  }

  // Then every accepted file of the tree has exactly one Location in the Root,
  // with the file's state, size, times, file id and fingerprint.
  lemma FilesHaveRows(t: Tables, root: Id, tree: Node, path: Path, facts: Facts)
    requires Consistent(t) && WellNamed(tree) && Sound(tree) && Pictures(t, root, tree)
    requires Lookup(tree, path).Some? && Lookup(tree, path).value.File? && Lookup(tree, path).value.inspection == Accepted(facts)
    ensures exists l :: MatchedAt(t, l, root, Candidate(path, facts)) && forall k :: At(t.locations, k, root, path) ==> k == l
  {
    hide Survey, Sound, WellNamed, Lookup, Drawn, Placed, Owned, Attributed, Filed, OneHome, OneOrigin, Inhabited;
    FileIsCandidate(tree, path, facts);
    assert Matched(t, root, Candidate(path, facts));
    var l :| MatchedAt(t, l, root, Candidate(path, facts));
    assert forall k :: At(t.locations, k, root, path) ==> k == l;
  }

  // And every Location of the Root has exactly the state the tree gives its path.
  lemma RowsHaveTreeState(t: Tables, root: Id, tree: Node, l: Id)
    requires Consistent(t) && WellNamed(tree) && Sound(tree) && Pictures(t, root, tree)
    requires l in t.locations && t.locations[l].root == root
    ensures t.locations[l].state == TreeState(tree, t.locations[l].path)
  {
    hide Survey, Sound, WellNamed, Lookup, TreeState, NotesOf, SealedOf, CandidatesOf;
    hide Drawn, Placed, Owned, Attributed, Filed, OneHome, OneOrigin, Inhabited;
    var cs, path := CandidatesOf(Survey([], tree)), t.locations[l].path;
    if path in PathsOf(cs) {
      var c :| c in cs && c.path == path;
      assert Matched(t, root, c);
      var k :| MatchedAt(t, k, root, c);
      assert k == l;
      CandidateFile(tree, c);
      TreeStateByLookup(tree, path);
    } else {
      assert Unseen(t, l, root, PathsOf(cs));
      UnseenIsTreeState(tree, path);
    }
  }

  lemma CandidateFile(tree: Node, c: Candidate)
    requires WellNamed(tree) && Sound(tree) && c in CandidatesOf(Survey([], tree))
    ensures Lookup(tree, c.path).Some? && LeafState(Lookup(tree, c.path).value) == c.State()
    ensures !exists k :: Hidden(tree, c.path, k)
  {
    SurveyApart([], tree);
    CandidatesProject(Survey([], tree));
    OffersFiles(tree, c);
    NotHidden(tree, c.path);
  }

  // The catalogue after a completed scan of the tree.
  ghost function After(t: Tables, root: Id, tree: Node, gone: Path -> bool): (r: Tables)
    requires Consistent(t) && root in t.roots
    ensures Consistent(r) && KeepsIdentity(t, r)
  {
    var found := Survey([], tree);
    ScannedKeeps(t, root, CandidatesOf(found), NotesOf(found), SealedOf(found), gone);
    Scanned(t, root, CandidatesOf(found), NotesOf(found), SealedOf(found), gone)
  }

  // A completed scan makes the rows picture the tree.
  lemma ScanPictures(t: Tables, root: Id, tree: Node, gone: Path -> bool)
    requires Consistent(t) && root in t.roots && WellNamed(tree) && Sound(tree) && Answers(gone, tree)
    ensures Pictures(After(t, root, tree, gone), root, tree)
  {
    hide Survey, Sound, WellNamed, Lookup, NotesOf, SealedOf, CandidatesOf, KeepsIdentity;
    var found, r := Survey([], tree), After(t, root, tree, gone);
    Presentable(tree, gone);
    ScannedSettles(t, root, CandidatesOf(found), NotesOf(found), SealedOf(found), gone);
  }

  // Scanning the same tree again writes nothing at all but the revision.
  lemma ScanTwice(t: Tables, root: Id, tree: Node, gone: Path -> bool, again: Path -> bool)
    requires Consistent(t) && root in t.roots && WellNamed(tree) && Sound(tree) && Answers(gone, tree)
    ensures After(After(t, root, tree, gone), root, tree, again)
         == After(t, root, tree, gone).(revision := After(t, root, tree, gone).revision + 1)
  {
    hide Survey, Sound, WellNamed, Lookup, NotesOf, SealedOf, CandidatesOf;
    var found, r := Survey([], tree), After(t, root, tree, gone);
    ScanPictures(t, root, tree, gone);
    RescanIdle(r, root, CandidatesOf(found), NotesOf(found), SealedOf(found), again);
  }

  // So does a scan whose batches were cut anywhere and interleaved with edits,
  // other Roots' scans and rendition jobs, as long as the tree stays.
  lemma InterleavedScanPictures(s: State, actions: seq<Action>, job: Id, tree: Node)
    requires Inv(s) && job in s.scans && job in Run(s, actions).scans && WellNamed(tree) && Sound(tree)
    requires forall a <- actions :: !(a.MarksUnseen? && a.mark == job)
    requires FlushedBy(actions, job) == CandidatesOf(Survey([], tree))
    requires forall a <- actions :: a.Flushes? && a.flush == job ==> Answers(a.gone, tree)
    ensures var found := Survey([], tree);
      var r := History.Step(Run(s, actions), MarksUnseen(job, PathsOf(CandidatesOf(found)), NotesOf(found), SealedOf(found)));
      Consistent(r.t) && Pictures(r.t, s.scans[job], tree)
  {
    hide Survey, Sound, WellNamed, Lookup, NotesOf, SealedOf, CandidatesOf, Inv, History.Step, Settled, Answers, Consistent;
    var found := Survey([], tree);
    AllPresentable(actions, job, tree);
    InterleavedScanSettles(s, actions, job, NotesOf(found), SealedOf(found));
  }

  lemma AllPresentable(actions: seq<Action>, job: Id, tree: Node)
    requires WellNamed(tree) && Sound(tree)
    requires forall a <- actions :: a.Flushes? && a.flush == job ==> Answers(a.gone, tree)
    ensures DistinctPaths(CandidatesOf(Survey([], tree))) && Holds(actions, job, CandidatesOf(Survey([], tree)))
  {
    hide Survey, Sound, WellNamed, Lookup, CandidatesOf, Answers;
    NothingGone(tree);
    forall a <- actions | a.Flushes? && a.flush == job ensures forall c <- CandidatesOf(Survey([], tree)) :: !a.gone(c.path) {
      Presentable(tree, a.gone);
    }
  }

  lemma NothingGone(tree: Node)
    requires WellNamed(tree) && Sound(tree)
    ensures DistinctPaths(CandidatesOf(Survey([], tree)))
  {
    hide Survey, CandidatesOf;
    SurveyApart([], tree);
    CandidatesProject(Survey([], tree));
  }
}
