/**
 One run of a scan: the explicit directory stack over the file tree, batches of
 candidates merged into the catalogue, and the three ways a run ends.
 */
module ScanRun {
  import opened Wrappers
  import opened Tables
  import opened Reconcile
  import opened ScanOutcome
  import opened CatalogueStore
  import opened Walk
  import opened Sequences

  const INSERT_BATCH := 32
  const MAX_DIRECTORY_ENTRIES := 100_000
  const MAX_QUEUED_DIRECTORIES := 100_000
  const MAX_SCAN_ENTRIES := 250_000

  /** What the findings of a walk amount to. */

  function CandidatesOf(fs: seq<Finding>): seq<Candidate> {
    if fs == [] then [] else
      var f := fs[|fs| - 1];
      CandidatesOf(fs[..|fs| - 1]) + if f.Offered? then [f.candidate] else []
  }

  function NotesOf(fs: seq<Finding>): map<Path, LocationState> {
    if fs == [] then map[] else
      var f := fs[|fs| - 1];
      var notes := NotesOf(fs[..|fs| - 1]);
      if f.Noted? then notes[f.at := f.state] else notes
  }

  function SealedOf(fs: seq<Finding>): set<Path> {
    if fs == [] then {} else
      var f := fs[|fs| - 1];
      SealedOf(fs[..|fs| - 1]) + if f.SealedOff? then {f.at} else {}
  }

  function UnsupportedIn(cs: seq<Candidate>): (n: nat)
    ensures n <= |cs|
  {
    if cs == [] then 0 else
      UnsupportedIn(cs[..|cs| - 1]) + if cs[|cs| - 1].Unsupported() then 1 else 0
  }

  ghost function Unpreviewed(cs: seq<Candidate>): set<int> {
    set i | 0 <= i < |cs| && cs[i].facts.media.preview == "none"
  }

  lemma UnpreviewedSnoc(cs: seq<Candidate>, c: Candidate)
    ensures Unpreviewed(cs + [c]) == Unpreviewed(cs) + if c.facts.media.preview == "none" then {|cs|} else {}
    ensures |cs| !in Unpreviewed(cs)
  {
  }

  // It counts the candidates that cannot be previewed.
  lemma {:induction false} UnsupportedCounts(cs: seq<Candidate>)
    ensures UnsupportedIn(cs) == |Unpreviewed(cs)|
  {
    if cs == [] {
      assert Unpreviewed(cs) == {};
    } else {
      var front, last := cs[..|cs| - 1], cs[|cs| - 1];
      UnsupportedCounts(front);
      UnpreviewedSnoc(front, last);
      assert front + [last] == cs;
      assert UnsupportedIn(cs) == UnsupportedIn(front) + if last.Unsupported() then 1 else 0;
      hide Unpreviewed, UnsupportedIn;
    }
  }

  // The batches of a scan, one after the other.
  function Flat(batches: seq<seq<Candidate>>): seq<Candidate> {
    if batches == [] then [] else Flat(batches[..|batches| - 1]) + batches[|batches| - 1]
  }

  lemma FlatSnoc(batches: seq<seq<Candidate>>, batch: seq<Candidate>)
    ensures Flat(batches + [batch]) == Flat(batches) + batch
  {
    Snoc(batches, batch);
  }

  lemma Snoc<T>(s: seq<T>, x: T)
    ensures (s + [x])[..|s + [x]| - 1] == s
  {
  }

  /** What the directories still on the stack will yield. */

  // Reopening a directory from the Root.
  function Reopen(tree: Node, path: Path): Node
  {
    match Lookup(tree, path)
    case Some(node) => node
    case None => Shut(0, NotFound)
  }

  ghost function Remaining(tree: Node, stack: seq<Path>): seq<Finding> {
    if stack == [] then [] else
      var path := stack[|stack| - 1];
      Survey(path, Reopen(tree, path)) + Remaining(tree, stack[..|stack| - 1])
  }

  // Entries not yet listed, directories not yet opened.
  ghost function EntriesLeft(tree: Node, stack: seq<Path>): nat {
    if stack == [] then 0 else
      EntryCount(Reopen(tree, stack[|stack| - 1])) + EntriesLeft(tree, stack[..|stack| - 1])
  }

  ghost function FoldersLeft(tree: Node, stack: seq<Path>): nat {
    if stack == [] then 0 else
      FolderCount(Reopen(tree, stack[|stack| - 1])) + FoldersLeft(tree, stack[..|stack| - 1])
  }

  // No open, listing or inspection below the node fails in a way that ends the walk.
  ghost predicate Sound(node: Node)
    decreases node, 1
  {
    match Open(node)
    case Listed(children) => SoundBelow(children)
    case Broken(_) => false
    case _ => true
  }

  ghost predicate SoundBelow(children: seq<Node>)
    decreases children, 0
  {
    children == [] ||
    (&& !Meet([], children[0]).Abort?
     && (Directory(children[0]) ==> Sound(children[0]))
     && SoundBelow(children[1..]))
  }

  ghost predicate SoundLeft(tree: Node, stack: seq<Path>) {
    stack == [] || (Sound(Reopen(tree, stack[|stack| - 1])) && SoundLeft(tree, stack[..|stack| - 1]))
  }

  lemma Push(tree: Node, stack: seq<Path>, path: Path)
    ensures Remaining(tree, stack + [path]) == Survey(path, Reopen(tree, path)) + Remaining(tree, stack)
    ensures EntriesLeft(tree, stack + [path]) == EntryCount(Reopen(tree, path)) + EntriesLeft(tree, stack)
    ensures FoldersLeft(tree, stack + [path]) == FolderCount(Reopen(tree, path)) + FoldersLeft(tree, stack)
    ensures SoundLeft(tree, stack + [path]) <==> Sound(Reopen(tree, path)) && SoundLeft(tree, stack)
  {
    Snoc(stack, path);
  }

  lemma {:induction false} ReopenChild(tree: Node, path: Path, i: nat)
    requires WellNamed(tree) && Lookup(tree, path).Some?
    requires Reopen(tree, path).Folder? && i < |Reopen(tree, path).children|
    ensures WellNamed(Reopen(tree, path))
    ensures var child := Reopen(tree, path).children[i];
      Lookup(tree, path + [child.name]) == Some(child)
    decreases |path|
  {
    var child := Reopen(tree, path).children[i];
    if path == [] {
      assert path + [child.name] == [child.name];
      LookupInAt(tree.children, [child.name], i);
    } else {
      var k := LookupInWhere(tree.children, path);
      assert (path + [child.name])[1..] == path[1..] + [child.name];
      var below := tree.children[k];
      assert below in tree.children;
      assert Reopen(tree, path) == Reopen(below, path[1..]);
      ReopenChild(below, path[1..], i);
      LookupInAt(tree.children, path + [child.name], k);
    }
  }

  /** The frame of a merge: jobs and the revision are not read. */

  lemma RelocatedFrame(t: Tables, root: Id, c: Candidate, gone: Path -> bool, jobs: map<Id, Job>, revision: nat)
    requires Linked(t) && Linked(t.(jobs := jobs, revision := revision))
    ensures Relocated(t.(jobs := jobs, revision := revision), root, c, gone) == Relocated(t, root, c, gone)
  {
    var u := t.(jobs := jobs, revision := revision);
    forall l ensures Renamed(u, l, root, c, gone) <==> Renamed(t, l, root, c, gone) {
      forall k ensures Twin(u, k, root, c) <==> Twin(t, k, root, c) {}
    }
  }

  lemma RefreshFrame(t: Tables, l: Id, c: Candidate, jobs: map<Id, Job>, revision: nat)
    requires Linked(t) && Linked(t.(jobs := jobs, revision := revision)) && l in t.locations
    ensures Refresh(t.(jobs := jobs, revision := revision), l, c) == Refresh(t, l, c).(jobs := jobs, revision := revision)
  {
  }

  lemma InsertFrame(t: Tables, root: Id, c: Candidate, jobs: map<Id, Job>, revision: nat)
    ensures Insert(t.(jobs := jobs, revision := revision), root, c) == Insert(t, root, c).(jobs := jobs, revision := revision)
  {
  }

  lemma OneFrame(t: Tables, root: Id, c: Candidate, gone: Path -> bool, jobs: map<Id, Job>, revision: nat)
    requires Linked(t) && Linked(t.(jobs := jobs, revision := revision))
    ensures One(t.(jobs := jobs, revision := revision), root, c, gone)
         == One(t, root, c, gone).(jobs := jobs, revision := revision)
  {
    hide Refresh, Insert, Owned, Attributed, Filed;
    InsertFrame(t, root, c, jobs, revision);
    RelocatedFrame(t, root, c, gone, jobs, revision);
    match Existing(t.locations, root, c.path)
    case Some(l) => RefreshFrame(t, l, c, jobs, revision);
    case None =>
      match Relocated(t, root, c, gone)
      case Some(l) => RefreshFrame(Relocate(t, l, c), l, c, jobs, revision);
      case None =>
  }

  lemma {:induction false} AllFrame(t: Tables, root: Id, cs: seq<Candidate>, gone: Path -> bool, jobs: map<Id, Job>, revision: nat)
    requires Consistent(t) && Consistent(t.(jobs := jobs, revision := revision)) && root in t.roots
    ensures All(t.(jobs := jobs, revision := revision), root, cs, gone)
         == All(t, root, cs, gone).(jobs := jobs, revision := revision)
    decreases |cs|
  {
    if cs != [] {
      AllFrame(t, root, cs[..|cs| - 1], gone, jobs, revision);
      OneFrame(All(t, root, cs[..|cs| - 1], gone), root, cs[|cs| - 1], gone, jobs, revision);
    }
  }

  // The catalogue while a scan runs: the candidates flushed so far merged into
  // what it started from, and the job's progress.
  ghost function Midway(start: Tables, root: Id, job: Id, cs: seq<Candidate>, gone: Path -> bool, revision: nat): Tables
    requires Consistent(start) && root in start.roots
  {
    All(start, root, cs, gone).(jobs := Progressed(start.jobs, job, |cs|, UnsupportedIn(cs)), revision := revision)
  }

  lemma MidwayConsistent(start: Tables, root: Id, job: Id, cs: seq<Candidate>, gone: Path -> bool, revision: nat)
    requires Consistent(start) && root in start.roots
    ensures Consistent(Midway(start, root, job, cs, gone, revision))
    ensures root in Midway(start, root, job, cs, gone, revision).roots
  {
    var all := All(start, root, cs, gone);
    AllKeepsCuration(start, root, cs, gone);
    assert Progressed(start.jobs, job, |cs|, UnsupportedIn(cs)).Keys == start.jobs.Keys;
  }

  lemma MidwayFlush(start: Tables, root: Id, job: Id, a: seq<Candidate>, b: seq<Candidate>, gone: Path -> bool, revision: nat)
    requires Consistent(start) && root in start.roots
    requires Consistent(Midway(start, root, job, a, gone, revision))
    ensures All(Midway(start, root, job, a, gone, revision), root, b, gone)
         == All(start, root, a + b, gone).(jobs := Progressed(start.jobs, job, |a|, UnsupportedIn(a)), revision := revision)
  {
    BatchesAgree(start, root, a, b, gone);
    AllFrame(All(start, root, a, gone), root, b, gone, Progressed(start.jobs, job, |a|, UnsupportedIn(a)), revision);
  }

  // Recording the progress of the new total completes a flush.
  lemma MidwayProgress(start: Tables, root: Id, job: Id, a: seq<Candidate>, b: seq<Candidate>, gone: Path -> bool,
                       merged: Tables, bumped: nat)
    requires Consistent(start) && root in start.roots
    requires Consistent(Midway(start, root, job, a, gone, merged.revision))
    requires merged == All(Midway(start, root, job, a, gone, merged.revision), root, b, gone)
    ensures merged.(jobs := Progressed(merged.jobs, job, |a + b|, UnsupportedIn(a + b)), revision := bumped)
         == Midway(start, root, job, a + b, gone, bumped)
  {
    hide Consistent, KeepsIdentity;
    MidwayFlush(start, root, job, a, b, gone, merged.revision);
  }

  lemma MarkFrame(t: Tables, ids: set<Id>, notes: map<Path, LocationState>, sealed: set<Path>, jobs: map<Id, Job>, revision: nat)
    ensures MarkIds(t.(jobs := jobs, revision := revision), ids, notes, sealed)
         == MarkIds(t, ids, notes, sealed).(jobs := jobs, revision := revision)
  {
    var u := t.(jobs := jobs, revision := revision);
    assert Restated(u, ids, notes, sealed) == Restated(t, ids, notes, sealed);
    assert MarkIds(u, ids, notes, sealed).sources == MarkIds(t, ids, notes, sealed).sources;
  }

  lemma MarkUnseenFrame(t: Tables, root: Id, seen: set<Path>, notes: map<Path, LocationState>, sealed: set<Path>,
                        jobs: map<Id, Job>, revision: nat)
    ensures MarkUnseen(t.(jobs := jobs, revision := revision), root, seen, notes, sealed)
         == MarkUnseen(t, root, seen, notes, sealed).(jobs := jobs, revision := revision + 1)
  {
    var u := t.(jobs := jobs, revision := revision);
    assert UnseenIds(u, root, seen) == UnseenIds(t, root, seen);
    MarkFrame(t, UnseenIds(t, root, seen), notes, sealed, jobs, revision);
  }

  // The closing update overwrites the progress, and its result is compared up
  // to the revision.
  lemma ConcludedFrame(t: Tables, root: Id, rootState: RootState, job: Id, jobState: JobState, observed: nat, unsupported: nat,
                       a: nat, b: nat, revision: nat, bumped: nat)
    ensures Concluded(t.(jobs := Progressed(t.jobs, job, a, b), revision := revision),
                      root, rootState, job, jobState, observed, unsupported).(revision := bumped)
         == Concluded(t, root, rootState, job, jobState, observed, unsupported).(revision := bumped)
  {
  }

  lemma MidwayCompleted(start: Tables, root: Id, job: Id, cs: seq<Candidate>, gone: Path -> bool, revision: nat,
                        notes: map<Path, LocationState>, sealed: set<Path>, bumped: nat)
    requires Consistent(start) && root in start.roots
    ensures Concluded(MarkUnseen(Midway(start, root, job, cs, gone, revision), root, PathsOf(cs), notes, sealed),
                      root, Ready, job, JobState.Completed, |cs|, UnsupportedIn(cs)).(revision := bumped)
         == Concluded(Scanned(start, root, cs, notes, sealed, gone),
                      root, Ready, job, JobState.Completed, |cs|, UnsupportedIn(cs)).(revision := bumped)
  {
    hide Consistent; hide KeepsIdentity; hide Concluded; hide MarkUnseen;
    var all := All(start, root, cs, gone);
    AllKeepsCuration(start, root, cs, gone);
    var jobs := Progressed(start.jobs, job, |cs|, UnsupportedIn(cs));
    MarkUnseenFrame(all, root, PathsOf(cs), notes, sealed, jobs, revision);
    var scanned := Scanned(start, root, cs, notes, sealed, gone);
    assert scanned.jobs == start.jobs by { ScannedKeeps(start, root, cs, notes, sealed, gone); }
    ConcludedFrame(scanned, root, Ready, job, JobState.Completed, |cs|, UnsupportedIn(cs), |cs|, UnsupportedIn(cs), revision + 1, bumped);
  }

  lemma MidwayCancelled(start: Tables, root: Id, job: Id, cs: seq<Candidate>, gone: Path -> bool, revision: nat, bumped: nat)
    requires Consistent(start) && root in start.roots
    ensures Concluded(Midway(start, root, job, cs, gone, revision),
                      root, Connected, job, JobState.Cancelled, |cs|, UnsupportedIn(cs)).(revision := bumped)
         == Concluded(All(start, root, cs, gone),
                      root, Connected, job, JobState.Cancelled, |cs|, UnsupportedIn(cs)).(revision := bumped)
  {
    hide Consistent; hide KeepsIdentity; hide Concluded;
    AllKeepsCuration(start, root, cs, gone);
    ConcludedFrame(All(start, root, cs, gone), root, Connected, job, JobState.Cancelled, |cs|, UnsupportedIn(cs),
                   |cs|, UnsupportedIn(cs), revision, bumped);
  }

  /** One directory listing. */

  // The stack holds, above what it held before the listing, just what the
  // given (last) entries of the directory still yield.
  ghost predicate Covered(tree: Node, path: Path, children: seq<Node>, before: seq<Path>, stack: seq<Path>) {
    && Remaining(tree, stack) == Beneath(path, children) + Remaining(tree, before)
    && EntriesLeft(tree, stack) == EntriesBelow(children) + EntriesLeft(tree, before)
    && FoldersLeft(tree, stack) == FoldersBelow(children) + FoldersLeft(tree, before)
    && (SoundLeft(tree, stack) <==> SoundBelow(children) && SoundLeft(tree, before))
  }

  lemma CoveredStep(tree: Node, path: Path, children: seq<Node>, before: seq<Path>, stack: seq<Path>)
    requires children != [] && Covered(tree, path, children[1..], before, stack)
    requires Lookup(tree, path + [children[0].name]) == Some(children[0])
    requires !Meet([], children[0]).Abort?
    ensures var at := path + [children[0].name];
      Covered(tree, path, children, before, if Directory(children[0]) then stack + [at] else stack)
  {
    hide Meet; hide Lookup; hide Survey; hide Remaining; hide EntriesLeft; hide FoldersLeft; hide SoundLeft;
    var at := path + [children[0].name];
    if Directory(children[0]) {
      Push(tree, stack, at);
      var below, beneath, rest := Survey(at, children[0]), Beneath(path, children[1..]), Remaining(tree, before);
      assert below + (beneath + rest) == (below + beneath) + rest;
    } else {
      assert Beneath(path, children) == Beneath(path, children[1..]);
      assert EntriesBelow(children) == EntriesBelow(children[1..]);
      assert FoldersBelow(children) == FoldersBelow(children[1..]);
      assert SoundBelow(children) == SoundBelow(children[1..]);
    }
  }

  lemma {:induction false} EntriesPrefix(path: Path, children: seq<Node>, i: nat)
    requires i <= |children|
    ensures Entries(path, children[i..]) <= Entries(path, children)
    ensures SoundBelow(children) ==> SoundBelow(children[i..])
    decreases i
  {
    if i == 0 {
      assert children[0..] == children;
    } else {
      EntriesPrefix(path, children[1..], i - 1);
      assert children[1..][i - 1..] == children[i..];
    }
  }

  lemma EntriesStep(path: Path, children: seq<Node>, i: nat)
    requires i < |children|
    ensures var at := path + [children[i].name];
      && children[i..][0] == children[i] && children[i..][1..] == children[i + 1..]
      && Entries(path, children[i..]) == Entries(path, children[i + 1..]) + Recorded(at, children[i])
      && (Meet(at, children[i]).Abort? <==> Meet([], children[i]).Abort?)
      && (Meet([], children[i]).Abort? ==> !SoundBelow(children[i..]))
  {
  }

  lemma NothingYet(tree: Node, path: Path, children: seq<Node>, stack: seq<Path>)
    ensures children[|children|..] == [] && Entries(path, []) == [] && Covered(tree, path, [], stack, stack)
  {
  }

  lemma ListedChild(tree: Node, path: Path, children: seq<Node>, i: nat)
    requires WellNamed(tree) && Lookup(tree, path).Some? && Open(Reopen(tree, path)) == Listed(children)
    requires i < |children|
    ensures Lookup(tree, path + [children[i].name]) == Some(children[i])
  {
    ReopenChild(tree, path, i);
  }

  // From stack `before` plus one directory to `stack`: nothing owed is lost.
  ghost predicate Advanced(tree: Node, path: Path, before: seq<Path>, stack: seq<Path>, gained: seq<Finding>, listed: nat) {
    var node := Reopen(tree, path);
    && gained + Remaining(tree, stack) == Survey(path, node) + Remaining(tree, before)
    && gained <= Survey(path, node)
    && listed + EntriesLeft(tree, stack) == EntryCount(node) + EntriesLeft(tree, before)
    && FoldersLeft(tree, stack) < FolderCount(node) + FoldersLeft(tree, before)
    && (SoundLeft(tree, stack) <==> Sound(node) && SoundLeft(tree, before))
  }

  lemma AdvancedUnlisted(tree: Node, path: Path, stack: seq<Path>)
    requires Open(Reopen(tree, path)).Skipped? || Open(Reopen(tree, path)).Refused?
    ensures Advanced(tree, path, stack, stack, if Open(Reopen(tree, path)).Refused? then [SealedOff(path)] else [], 0)
  {
  }

  lemma ReadListed(tree: Node, path: Path, children: seq<Node>)
    requires Open(Reopen(tree, path)) == Listed(children)
    ensures var node := Reopen(tree, path);
      && Survey(path, node) == [Entered(path)] + Entries(path, children) + Beneath(path, children)
      && EntryCount(node) == |children| + EntriesBelow(children)
      && FolderCount(node) == 1 + FoldersBelow(children)
      && (Sound(node) <==> SoundBelow(children))
  {
  }

  lemma AdvancedListed(tree: Node, path: Path, children: seq<Node>, before: seq<Path>, stack: seq<Path>)
    requires Open(Reopen(tree, path)) == Listed(children)
    requires Covered(tree, path, children, before, stack)
    ensures Advanced(tree, path, before, stack, [Entered(path)] + Entries(path, children), |children|)
  {
    hide Survey; hide Beneath; hide Entries; hide Remaining; hide Reopen; hide EntryCount; hide EntriesBelow; hide EntriesLeft;
    hide FolderCount; hide FoldersBelow; hide FoldersLeft; hide Sound; hide SoundBelow; hide SoundLeft; hide Open;
    ReadListed(tree, path, children);
    var head, below, rest := [Entered(path)] + Entries(path, children), Beneath(path, children), Remaining(tree, before);
    assert head + (below + rest) == (head + below) + rest;
  }

  lemma Refuses(tree: Node, path: Path)
    requires Open(Reopen(tree, path)).Refused?
    ensures Survey(path, Reopen(tree, path)) == [SealedOff(path)]
  {
  }

  // The error that the operating system answers with.
  function Told(node: Node): IoKind {
    match node
    case Unlisted(_, kind) => kind
    case Shut(_, kind) => kind
    case FileShut(_, kind) => kind
    case File(_, Faulted(kind)) => kind
    case _ => Other
  }

  // The answer is this error, or no directory is where one is opened.
  predicate Tells(node: Node, fault: Fault) {
    fault == Io(Told(node)) || (fault == Io(Other) && (node.File? || node.Special? || node.FileShut?))
  }

  // The tree gives this error at some path.
  ghost predicate Blamed(tree: Node, fault: Fault) {
    exists path: Path :: Lookup(tree, path).Some? && Tells(Lookup(tree, path).value, fault)
  }

  lemma BlameChild(tree: Node, path: Path, children: seq<Node>, i: nat)
    requires WellNamed(tree) && Lookup(tree, path).Some? && Open(Reopen(tree, path)) == Listed(children) && i < |children|
    requires Meet(path + [children[i].name], children[i]).Abort?
    ensures Blamed(tree, Meet(path + [children[i].name], children[i]).fault)
  {
    ListedChild(tree, path, children, i);
    assert Lookup(tree, path + [children[i].name]).Some?;
  }

  lemma BlameOpened(tree: Node, path: Path)
    requires Open(Reopen(tree, path)).Broken?
    ensures Blamed(tree, Open(Reopen(tree, path)).fault)
  {
    assert Lookup(tree, path).Some?;
  }

  lemma Breaks(tree: Node, path: Path)
    requires Open(Reopen(tree, path)).Broken?
    ensures !Sound(Reopen(tree, path)) && Open(Reopen(tree, path)).fault.Io?
  {
  }

  // A directory listing is an initial part of what the directory yields.
  lemma ListedPrefix(tree: Node, path: Path, children: seq<Node>, found: seq<Finding>, known: seq<Finding>)
    requires Open(Reopen(tree, path)) == Listed(children)
    requires known + [Entered(path)] <= found <= known + [Entered(path)] + Entries(path, children)
    ensures known <= found <= known + Survey(path, Reopen(tree, path))
    ensures Sound(Reopen(tree, path)) ==> SoundBelow(children)
    ensures |children| <= EntryCount(Reopen(tree, path))
  {
    hide Survey, Entries, Beneath, EntryCount, EntriesBelow, FolderCount, FoldersBelow, Sound, SoundBelow, Reopen, Open;
    ReadListed(tree, path, children);
    var node := Reopen(tree, path);
    assert known + Survey(path, node) == (known + [Entered(path)] + Entries(path, children)) + Beneath(path, children);
  }

  // The invariant of the walk over the whole stack.
  ghost predicate Owing(tree: Node, found: seq<Finding>, stack: seq<Path>, traversed: nat) {
    && found + Remaining(tree, stack) == Survey([], tree)
    && traversed + EntriesLeft(tree, stack) == EntryCount(tree)
    && (SoundLeft(tree, stack) <==> Sound(tree))
  }

  lemma OwingStart(tree: Node)
    ensures Owing(tree, [], [[]], 0)
  {
    var none: seq<Path>, top: Path := [], [];
    Push(tree, none, top);
    assert none + [top] == [[]];
    assert Remaining(tree, [[]]) == Survey([], tree);
  }

  lemma OwingPop(tree: Node, found: seq<Finding>, front: seq<Path>, path: Path, traversed: nat)
    requires Owing(tree, found, front + [path], traversed)
    ensures found + Survey(path, Reopen(tree, path)) <= Survey([], tree)
    ensures traversed + EntryCount(Reopen(tree, path)) <= EntryCount(tree)
    ensures Sound(tree) ==> Sound(Reopen(tree, path))
  {
    Push(tree, front, path);
    var here, rest := Survey(path, Reopen(tree, path)), Remaining(tree, front);
    assert found + (here + rest) == (found + here) + rest;
  }

  lemma OwingStep(tree: Node, found: seq<Finding>, front: seq<Path>, path: Path, traversed: nat,
                  stack: seq<Path>, gained: seq<Finding>, listed: nat)
    requires Owing(tree, found, front + [path], traversed)
    requires Advanced(tree, path, front, stack, gained, listed)
    ensures Owing(tree, found + gained, stack, traversed + listed)
    ensures FoldersLeft(tree, stack) < FoldersLeft(tree, front + [path])
  {
    hide Survey, Remaining, Reopen, EntriesLeft, FoldersLeft, SoundLeft, EntryCount, FolderCount, Sound;
    Push(tree, front, path);
    var here, rest := Survey(path, Reopen(tree, path)), Remaining(tree, front);
    assert (found + gained) + Remaining(tree, stack) == found + (gained + Remaining(tree, stack));
  }

  lemma OwingEnd(tree: Node, found: seq<Finding>, traversed: nat)
    requires Owing(tree, found, [], traversed)
    ensures found == Survey([], tree) && traversed == EntryCount(tree) && Sound(tree)
  {
  }

  lemma MarkPlaced(t: Tables)
    requires Consistent(t)
    ensures Placed(t.locations, t.roots.Keys, t.sources.Keys)
  {
  }

  lemma Fails(start: Tables, root: Id, job: Id, cs: seq<Candidate>, gone: Path -> bool, revision: nat, fault: Fault)
    requires Consistent(start) && root in start.roots
    ensures Bump(FailedScan(Midway(start, root, job, cs, gone, revision), root, job, fault))
         == FailedScan(Midway(start, root, job, cs, gone, 0), root, job, fault).(revision := revision + 1)
  {
  }

  // How the rows of the Root and of the job of a failed scan end, and that what
  // was flushed before is what was merged.
  ghost predicate EndsFailed(before: Tables, after: Tables, root: Id, job: Id, cs: seq<Candidate>, fault: Fault) {
    && root in after.roots
    && after.roots[root].state == (match fault
         case Io(NotFound) => OfflineVolume
         case Io(Denied) => NeedsPermission
         case Io(_) => Unavailable
         case LimitExceeded => Errored)
    && (job in before.jobs ==>
          && job in after.jobs && after.jobs[job].state == JobState.Failed
          && after.jobs[job].observed == |cs| && after.jobs[job].unsupported == UnsupportedIn(cs))
  }

  lemma FailedEnds(start: Tables, root: Id, job: Id, cs: seq<Candidate>, gone: Path -> bool, fault: Fault)
    requires Consistent(start) && root in start.roots
    ensures forall revision: nat ::
      EndsFailed(start, FailedScan(Midway(start, root, job, cs, gone, 0), root, job, fault).(revision := revision), root, job, cs, fault)
  {
    hide Consistent, All, UnsupportedIn;
    MidwayConsistent(start, root, job, cs, gone, 0);
  }

  datatype Outcome = Completed | Cancelled | Failed(fault: Fault)

  // What a step of the traversal ends in.
  datatype Step = Continue | Stop | Fall(fault: Fault)

  class Scan {
    const catalogue: Catalogue
    const root: Id
    const job: Id
    const tree: Node
    const gone: Path -> bool
    // What the flag says whenever it is looked at, and how often it has been.
    const cancelled: nat -> bool
    var polls: nat
    var stack: seq<Path>
    var batch: seq<Candidate>
    var notes: map<Path, LocationState>
    var unreadable: set<Path>
    var seen: set<Path>
    var observed: nat
    var unsupported: nat
    var traversed: nat
    ghost const start: Tables
    ghost var found: seq<Finding>
    ghost var flushed: seq<Candidate>
    ghost var batches: seq<seq<Candidate>>

    // The catalogue holds what was flushed, and the temporary table and the
    // counters agree with it.
    ghost predicate Stored()
      reads this`seen, this`observed, this`unsupported, this`flushed, this`batches, catalogue
    {
      && flushed == Flat(batches) && catalogue.revision == start.revision + |batches|
      && Consistent(start) && root in start.roots
      && seen == PathsOf(flushed) && observed == |flushed| && unsupported == UnsupportedIn(flushed)
      && catalogue.View() == Midway(start, root, job, flushed, gone, catalogue.revision)
    }

    // What the traversal recorded is what was found; the rest is in the batch.
    ghost predicate Walked()
      reads this`batch, this`notes, this`unreadable, this`found, this`flushed
    {
      && notes == NotesOf(found) && unreadable == SealedOf(found)
      && flushed + batch == CandidatesOf(found)
    }

    ghost predicate Valid()
      reads this`batch, this`notes, this`unreadable, this`seen, this`observed, this`unsupported, this`found, this`flushed, this`batches, catalogue
    {
      Stored() && Walked() && |batch| < INSERT_BATCH && WellNamed(tree)
    }

    // The flag was up when it was looked at since then.
    ghost predicate Interrupted(since: nat)
      reads this`polls
    {
      exists k :: since <= k < polls && cancelled(k)
    }

    constructor (catalogue: Catalogue, root: Id, job: Id, tree: Node, gone: Path -> bool, cancelled: nat -> bool)
      requires Consistent(catalogue.View()) && root in catalogue.roots && WellNamed(tree)
      requires job in catalogue.jobs ==> catalogue.jobs[job].observed == 0 && catalogue.jobs[job].unsupported == 0
      ensures this.catalogue == catalogue && this.root == root && this.job == job && this.tree == tree && this.gone == gone
      ensures this.cancelled == cancelled && polls == 0
      ensures start == catalogue.View() && Valid()
      ensures stack == [[]] && found == [] && traversed == 0
    {
      this.catalogue, this.root, this.job, this.tree, this.gone, this.cancelled := catalogue, root, job, tree, gone, cancelled;
      stack, batch, notes, unreadable, seen := [[]], [], map[], {}, {};
      observed, unsupported, traversed, polls := 0, 0, 0, 0;
      start, found, flushed, batches := catalogue.View(), [], [], [];
      new;
      assert catalogue.View() == Midway(start, root, job, [], gone, catalogue.revision);
    }

    method Poll() returns (up: bool)
      modifies this`polls
      ensures polls == old(polls) + 1 && up == cancelled(old(polls))
    {
      up := cancelled(polls);
      polls := polls + 1;
    }

    // Note one merged candidate in the temporary table and the counters.
    method Count(ghost prior: seq<Candidate>, c: Candidate)
      requires seen == PathsOf(prior) && observed == |prior| && unsupported == UnsupportedIn(prior)
      modifies this`seen, this`observed, this`unsupported
      ensures seen == PathsOf(prior + [c]) && observed == |prior + [c]| && unsupported == UnsupportedIn(prior + [c])
    {
      Snoc(prior, c);
      seen := seen + {c.path};
      observed := observed + 1;
      if c.Unsupported() {
        unsupported := unsupported + 1;
      }
    }

    method MergeOne(ghost before: Tables, ghost merged: seq<Candidate>, c: Candidate)
      requires Consistent(before) && root in before.roots
      requires catalogue.View() == All(before, root, merged, gone)
      modifies catalogue
      ensures catalogue.View() == All(before, root, merged + [c], gone)
    {
      AllSnoc(before, root, merged, c, gone);
      catalogue.Merge(root, c, gone);
    }

    // Merge the whole batch in order.
    method MergeBatch(cs: seq<Candidate>, ghost before: Tables)
      requires catalogue.View() == before && Consistent(before) && root in before.roots
      requires seen == PathsOf(flushed) && observed == |flushed| && unsupported == UnsupportedIn(flushed)
      modifies this`seen, this`observed, this`unsupported, catalogue
      ensures catalogue.View() == All(before, root, cs, gone) && catalogue.revision == before.revision
      ensures seen == PathsOf(flushed + cs) && observed == |flushed + cs| && unsupported == UnsupportedIn(flushed + cs)
    {
      hide Consistent, KeepsIdentity, PathsOf, UnsupportedIn;
      ghost var merged, prior := [], flushed;
      for i := 0 to |cs|
        invariant merged == cs[..i] && prior == flushed + merged
        invariant catalogue.View() == All(before, root, merged, gone)
        invariant seen == PathsOf(prior) && observed == |prior| && unsupported == UnsupportedIn(prior)
      {
        Count(prior, cs[i]);
        MergeOne(before, merged, cs[i]);
        merged, prior := merged + [cs[i]], prior + [cs[i]];
      }
      assert cs[..|cs|] == cs;
      AllKeepsCuration(before, root, cs, gone);
    }

    // Merge the batch and record the progress, in one transaction.
    method FlushBatch()
      requires Stored() && Walked()
      modifies this`batch, this`seen, this`observed, this`unsupported, this`flushed, this`batches, catalogue
      ensures Stored() && Walked() && batch == []
      ensures catalogue.revision >= old(catalogue.revision)
    {
      hide Consistent; hide KeepsIdentity; hide All, Midway, PathsOf, UnsupportedIn, NotesOf, SealedOf, CandidatesOf, Flat;
      if batch == [] {
        return;
      }
      ghost var before := catalogue.View();
      MidwayConsistent(start, root, job, flushed, gone, before.revision);
      MergeBatch(batch, before);
      MidwayProgress(start, root, job, flushed, batch, gone, catalogue.View(), catalogue.revision + 1);
      catalogue.Progress(job, observed, unsupported);
      FlatSnoc(batches, batch);
      flushed, batches := flushed + batch, batches + [batch];
      batch := [];
      assert flushed + batch == flushed;
    }

    // Take note of one finding; a full batch is flushed.
    method Note(f: Finding)
      requires Valid()
      modifies this`batch, this`notes, this`unreadable, this`seen, this`observed, this`unsupported, this`found, this`flushed, this`batches
      modifies catalogue
      ensures Valid() && found == old(found) + [f]
      ensures catalogue.revision >= old(catalogue.revision)
    {
      hide Midway, Consistent, PathsOf, UnsupportedIn;
      Snoc(found, f);
      found := found + [f];
      match f {
        case Entered(_) =>
        case Noted(at, state) => notes := notes[at := state];
        case SealedOff(at) => unreadable := unreadable + {at};
        case Offered(c) =>
          AppendLast(flushed, batch + [c]);
          batch := batch + [c];
          if |batch| >= INSERT_BATCH {
            FlushBatch();
          }
      }
    }

    // What the loop over a listing does with one name: open it as a directory,
    // then as a file.  A cancellation can be noticed before the name or while
    // the file is inspected.
    method Encounter(at: Path, node: Node) returns (step: Step)
      requires Valid()
      modifies this
      modifies catalogue
      ensures Valid() && catalogue.revision >= old(catalogue.revision) && traversed == old(traversed)
      ensures step.Continue? ==>
        && !Meet(at, node).Abort?
        && stack == (if Directory(node) then old(stack) + [at] else old(stack))
        && found == old(found) + Recorded(at, node)
      ensures !step.Continue? ==> found == old(found)
      ensures step.Fall? ==>
        if step.fault.LimitExceeded? then |old(stack)| >= MAX_QUEUED_DIRECTORIES && Directory(node) else Meet(at, node) == Abort(step.fault)
      ensures polls >= old(polls) && (step.Stop? <==> Interrupted(old(polls)))
    {
      hide Valid, Stored, Walked;
      var up := Poll();
      if up {
        return Stop;
      }
      if node.File? {
        up := Poll();
        if up {
          return Stop;
        }
      }
      match Meet(at, node) {
        case Descend =>
          if |stack| >= MAX_QUEUED_DIRECTORIES {
            return Fall(LimitExceeded);
          }
          stack := stack + [at];
        case Pass =>
        case Abort(fault) =>
          return Fall(fault);
        case Record(f) => Note(f);
      }
      return Continue;
    }

    // The loop over the names of one listing, last name first.
    method Visit(path: Path, children: seq<Node>) returns (step: Step)
      requires Valid() && Lookup(tree, path).Some? && Open(Reopen(tree, path)) == Listed(children)
      requires |stack| + |children| <= traversed
      modifies this
      modifies catalogue
      ensures Valid() && catalogue.revision >= old(catalogue.revision) && traversed == old(traversed)
      ensures old(found) <= found <= old(found) + Entries(path, children)
      ensures step.Continue? ==>
        && found == old(found) + Entries(path, children) && |stack| <= traversed
        && Covered(tree, path, children, old(stack), stack)
      ensures step.Fall? ==>
        if step.fault.LimitExceeded? then traversed > MAX_DIRECTORY_ENTRIES else !SoundBelow(children) && Blamed(tree, step.fault)
      ensures polls >= old(polls) && (step.Stop? <==> Interrupted(old(polls)))
    {
      hide Covered, Entries, SoundBelow, Lookup, Open, Valid, Blamed;
      ghost var before, known := stack, found;
      NothingYet(tree, path, children, stack);
      for i := |children| downto 0
        invariant Valid() && catalogue.revision >= old(catalogue.revision) && traversed == old(traversed)
        invariant found == known + Entries(path, children[i..])
        invariant |stack| + i <= traversed
        invariant polls >= old(polls) && !Interrupted(old(polls))
        invariant Covered(tree, path, children[i..], before, stack)
      {
        EntriesPrefix(path, children, i);
        EntriesPrefix(path, children, i + 1);
        step := VisitName(path, children, i, before, known);
        if !step.Continue? {
          return;
        }
      }
      assert children[0..] == children;
      return Continue;
    }

    // One round of that loop.
    method VisitName(path: Path, children: seq<Node>, i: nat, ghost before: seq<Path>, ghost known: seq<Finding>) returns (step: Step)
      requires Valid() && Lookup(tree, path).Some? && Open(Reopen(tree, path)) == Listed(children) && i < |children|
      requires found == known + Entries(path, children[i + 1..])
      requires |stack| + i < traversed && Covered(tree, path, children[i + 1..], before, stack)
      modifies this
      modifies catalogue
      ensures Valid() && catalogue.revision >= old(catalogue.revision) && traversed == old(traversed)
      ensures step.Continue? ==>
        && found == known + Entries(path, children[i..]) && |stack| + i <= traversed
        && Covered(tree, path, children[i..], before, stack)
      ensures !step.Continue? ==> found == old(found)
      ensures step.Fall? ==>
        if step.fault.LimitExceeded? then traversed > MAX_DIRECTORY_ENTRIES
        else !SoundBelow(children[i..]) && Blamed(tree, step.fault)
      ensures polls >= old(polls) && (step.Stop? <==> Interrupted(old(polls)))
    {
      hide Stored, Walked, Covered, Entries, SoundBelow, Meet, Lookup, Open, Recorded, Blamed;
      assert WellNamed(tree);
      if Meet(path + [children[i].name], children[i]).Abort? { BlameChild(tree, path, children, i); }
      hide Valid;
      ghost var held := stack;
      EntriesStep(path, children, i);
      step := Encounter(path + [children[i].name], children[i]);
      if step.Continue? {
        ListedChild(tree, path, children, i);
        CoveredStep(tree, path, children[i..], before, held);
      }
    }

    // One directory off the stack: reopen it from the Root, list it, go through its names.
    method Take(path: Path) returns (step: Step, ghost gained: seq<Finding>)
      requires Valid() && |stack| <= traversed <= MAX_SCAN_ENTRIES
      modifies this
      modifies catalogue
      ensures Valid() && catalogue.revision >= old(catalogue.revision)
      ensures old(found) <= found <= old(found) + Survey(path, Reopen(tree, path))
      ensures step.Continue? ==>
        && |stack| <= traversed <= MAX_SCAN_ENTRIES && traversed >= old(traversed) && found == old(found) + gained
        && Advanced(tree, path, old(stack), stack, gained, traversed - old(traversed))
      ensures step.Fall? ==>
        if step.fault.LimitExceeded? then old(traversed) + EntryCount(Reopen(tree, path)) > MAX_DIRECTORY_ENTRIES
        else !Sound(Reopen(tree, path)) && Blamed(tree, step.fault)
      ensures polls >= old(polls) && (step.Stop? <==> Interrupted(old(polls)))
    {
      hide Consistent; hide KeepsIdentity; hide Covered; hide Entries; hide SoundBelow; hide Meet; hide Lookup;
      hide Survey; hide Remaining; hide Advanced; hide EntryCount; hide Valid, Stored, Walked, Blamed;
      ghost var before, known := stack, found;
      gained := [];
      match Open(Reopen(tree, path)) {
        case Skipped =>
          AdvancedUnlisted(tree, path, stack);
          return Continue, [];
        case Refused =>
          AdvancedUnlisted(tree, path, stack);
          gained := [SealedOff(path)];
          assert gained <= Survey(path, Reopen(tree, path)) by { Refuses(tree, path); }
          Note(SealedOff(path));
          return Continue, gained;
        case Broken(fault) =>
          Breaks(tree, path);
          BlameOpened(tree, path);
          return Fall(fault), [];
        case Listed(children) =>
          ListedPrefix(tree, path, children, found + [Entered(path)], found);
          var up := Poll();
          if up {
            return Stop, [];
          }
          if |children| > MAX_DIRECTORY_ENTRIES || traversed + |children| > MAX_SCAN_ENTRIES {
            return Fall(LimitExceeded), [];
          }
          traversed := traversed + |children|;
          Note(Entered(path));
          step := Visit(path, children);
          ListedPrefix(tree, path, children, found, known);
          if step.Continue? {
            AdvancedListed(tree, path, children, before, stack);
            gained := [Entered(path)] + Entries(path, children);
            assert found == known + gained;
          }
      }
    }

    // How the rows of the Root and of the job end.
    ghost predicate Ends(rootState: RootState, jobState: JobState, cs: seq<Candidate>)
      reads catalogue
    {
      && root in catalogue.roots && catalogue.roots[root].state == rootState
      && (job in start.jobs ==>
            && job in catalogue.jobs && catalogue.jobs[job].state == jobState
            && catalogue.jobs[job].observed == |cs| && catalogue.jobs[job].unsupported == UnsupportedIn(cs))
    }

    lemma EndsSo(t: Tables, rootState: RootState, jobState: JobState, cs: seq<Candidate>)
      requires root in t.roots && t.jobs == start.jobs
      requires catalogue.View() == Concluded(t, root, rootState, job, jobState, |cs|, UnsupportedIn(cs)).(revision := catalogue.revision)
      ensures Ends(rootState, jobState, cs)
    {
      hide Concluded, UnsupportedIn;
      ConcludedRows(t, root, rootState, job, jobState, |cs|, UnsupportedIn(cs));
    }

    // A cancelled scan keeps what it collected.
    method FinishCancelled()
      requires Valid()
      modifies this`batch, this`seen, this`observed, this`unsupported, this`flushed, this`batches, catalogue
      ensures catalogue.revision > old(catalogue.revision)
      ensures Flat(batches) == CandidatesOf(found) && catalogue.revision == start.revision + |batches| + 1
      ensures catalogue.View() == Concluded(All(start, root, CandidatesOf(found), gone), root, Connected, job, JobState.Cancelled,
                                            |CandidatesOf(found)|, UnsupportedIn(CandidatesOf(found))).(revision := catalogue.revision)
      ensures Ends(Connected, JobState.Cancelled, CandidatesOf(found))
    {
      hide Consistent; hide KeepsIdentity; hide Concluded;
      FlushBatch();
      assert flushed == CandidatesOf(found);
      MidwayCancelled(start, root, job, flushed, gone, catalogue.revision, catalogue.revision + 1);
      catalogue.Conclude(root, Connected, job, JobState.Cancelled, observed, unsupported);
      AllKeepsCuration(start, root, flushed, gone);
      EndsSo(All(start, root, flushed, gone), Connected, JobState.Cancelled, flushed);
    }

    method FinishCompleted(text: Id -> nat)
      requires Valid() && Ordered(text)
      modifies this`batch, this`seen, this`observed, this`unsupported, this`flushed, this`batches, catalogue
      ensures catalogue.revision > old(catalogue.revision)
      ensures Flat(batches) == CandidatesOf(found) && catalogue.revision == start.revision + |batches| + 2
      ensures catalogue.View()
           == Concluded(Scanned(start, root, CandidatesOf(found), NotesOf(found), SealedOf(found), gone), root, Ready, job,
                        JobState.Completed, |CandidatesOf(found)|, UnsupportedIn(CandidatesOf(found))).(revision := catalogue.revision)
      ensures Ends(Ready, JobState.Completed, CandidatesOf(found))
    {
      hide Consistent; hide KeepsIdentity; hide Concluded; hide MarkUnseen;
      FlushBatch();
      assert flushed == CandidatesOf(found);
      MidwayConsistent(start, root, job, flushed, gone, catalogue.revision);
      MidwayCompleted(start, root, job, flushed, gone, catalogue.revision, notes, unreadable, catalogue.revision + 2);
      MarkPlaced(catalogue.View());
      catalogue.MarkUnseenLocations(root, seen, notes, unreadable, text);
      catalogue.Conclude(root, Ready, job, JobState.Completed, observed, unsupported);
      ScannedKeeps(start, root, flushed, notes, unreadable, gone);
      EndsSo(Scanned(start, root, flushed, notes, unreadable, gone), Ready, JobState.Completed, flushed);
    }

    // One round of the traversal: take the directory on top of the stack.
    method Round() returns (step: Step)
      requires Valid() && stack != [] && Owing(tree, found, stack, traversed) && found <= Survey([], tree)
      requires |stack| <= traversed + 1 && traversed <= MAX_SCAN_ENTRIES
      modifies this
      modifies catalogue
      ensures Valid() && catalogue.revision >= old(catalogue.revision) && found <= Survey([], tree)
      ensures polls >= old(polls) && (step.Stop? <==> Interrupted(old(polls)))
      ensures step.Continue? ==>
        && Owing(tree, found, stack, traversed) && |stack| <= traversed + 1 && traversed <= MAX_SCAN_ENTRIES
        && FoldersLeft(tree, stack) < old(FoldersLeft(tree, stack))
      ensures step.Fall? ==>
        if step.fault.LimitExceeded? then EntryCount(tree) > MAX_DIRECTORY_ENTRIES else !Sound(tree) && Blamed(tree, step.fault)
    {
      hide Consistent, Valid, Survey, EntryCount, Owing, Sound, FoldersLeft, Advanced, Stored, Walked, Reopen, Blamed;
      var up := Poll();
      if up {
        return Stop;
      }
      var path := stack[|stack| - 1];
      ghost var front, known, listed := stack[..|stack| - 1], found, traversed;
      assert front + [path] == stack;
      stack := stack[..|stack| - 1];
      OwingPop(tree, found, front, path, traversed);
      ghost var gained;
      step, gained := Take(path);
      if step.Continue? {
        OwingStep(tree, known, front, path, listed, stack, gained, traversed - listed);
      }
    }

    // The whole scan.
    method Run(text: Id -> nat) returns (outcome: Outcome)
      requires Valid() && Ordered(text) && stack == [[]] && found == [] && traversed == 0
      modifies this
      modifies catalogue
      ensures found <= Survey([], tree)
      ensures catalogue.revision > old(catalogue.revision)
      ensures outcome.Completed? ==>
        && found == Survey([], tree) && Sound(tree) && EntryCount(tree) <= 250_000
        && Flat(batches) == CandidatesOf(found) && catalogue.revision == start.revision + |batches| + 2
        && catalogue.View()
           == Concluded(Scanned(start, root, CandidatesOf(found), NotesOf(found), SealedOf(found), gone), root, Ready, job,
                        JobState.Completed, |CandidatesOf(found)|, UnsupportedIn(CandidatesOf(found))).(revision := catalogue.revision)
      ensures outcome.Cancelled? ==>
        && Flat(batches) == CandidatesOf(found) && catalogue.revision == start.revision + |batches| + 1
        && catalogue.View() == Concluded(All(start, root, CandidatesOf(found), gone), root, Connected, job, JobState.Cancelled,
                                      |CandidatesOf(found)|, UnsupportedIn(CandidatesOf(found))).(revision := catalogue.revision)
      ensures outcome.Failed? ==>
        && flushed == Flat(batches) && catalogue.revision == start.revision + |batches| + 1
        && flushed <= CandidatesOf(found) && |CandidatesOf(found)| < |flushed| + 32
        && catalogue.View()
           == FailedScan(Midway(start, root, job, flushed, gone, 0), root, job, outcome.fault).(revision := catalogue.revision)
        && if outcome.fault.LimitExceeded? then EntryCount(tree) > 100_000 else !Sound(tree) && Blamed(tree, outcome.fault)
      ensures outcome.Completed? ==> Ends(Ready, JobState.Completed, CandidatesOf(found))
      ensures outcome.Cancelled? ==> Ends(Connected, JobState.Cancelled, CandidatesOf(found))
      ensures outcome.Failed? ==> EndsFailed(start, catalogue.View(), root, job, flushed, outcome.fault)
      ensures outcome.Cancelled? <==> Interrupted(old(polls))
      ensures (forall k :: !cancelled(k)) && Sound(tree) && EntryCount(tree) <= 100_000 ==> outcome.Completed?
    {
      hide Consistent; hide KeepsIdentity; hide Concluded; hide FailedScan; hide All; hide Scanned; hide CandidatesOf; hide NotesOf;
      hide SealedOf; hide UnsupportedIn; hide Survey; hide EntryCount; hide Owing; hide Sound; hide FoldersLeft; hide Midway, Blamed, Ends;
      OwingStart(tree);
      while stack != []
        invariant Valid() && catalogue.revision >= old(catalogue.revision)
        invariant Owing(tree, found, stack, traversed) && found <= Survey([], tree)
        invariant |stack| <= traversed + 1 && traversed <= MAX_SCAN_ENTRIES
        invariant polls >= old(polls) && !Interrupted(old(polls))
        decreases FoldersLeft(tree, stack)
      {
        var step := Round();
        if step.Stop? {
          FinishCancelled();
          return Outcome.Cancelled;
        }
        if step.Fall? {
          Fails(start, root, job, flushed, gone, catalogue.revision, step.fault);
          FailedEnds(start, root, job, flushed, gone, step.fault);
          catalogue.MarkFailed(root, job, step.fault);
          return Outcome.Failed(step.fault);
        }
      }
      OwingEnd(tree, found, traversed);
      FinishCompleted(text);
      return Outcome.Completed;
    }
  }
}
