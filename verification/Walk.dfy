/**
 The file tree below a Root as the operating system answers for it, and the
 recursive reading of it that the scanner's explicit stack must agree with.
 */
module Walk {
  import opened Wrappers
  import opened Tables
  import opened ScanOutcome

  // What inspecting an opened regular file ends in.
  datatype Inspection = Accepted(facts: Facts) | Unclassified | Unstable | Faulted(kind: IoKind)

  // One directory entry, by how the two opens and the listing answer: a
  // directory that lists its entries sorted by name, or refuses to list; an
  // entry the directory open refuses; a non-directory that opens as a regular
  // file, as something else, or refuses.  The name of the Root is not used.
  datatype Node =
    | Folder(name: Name, children: seq<Node>)
    | Unlisted(name: Name, kind: IoKind)
    | Shut(name: Name, kind: IoKind)
    | File(name: Name, inspection: Inspection)
    | Special(name: Name)
    | FileShut(name: Name, kind: IoKind)

  ghost predicate Sorted(children: seq<Node>) {
    forall i, j | 0 <= i < j < |children| :: children[i].name < children[j].name
  }

  // A directory names each of its entries once.
  ghost predicate WellNamed(node: Node) {
    node.Folder? ==>
      && Sorted(node.children)
      && (forall c <- node.children :: WellNamed(c))
  }

  // What the walk learns about one path: it listed a directory, accepted a
  // file, has to give it a state of its own, or cannot read below it.
  datatype Finding =
    | Entered(at: Path)
    | Offered(candidate: Candidate)
    | Noted(at: Path, state: LocationState)
    | SealedOff(at: Path)
  {
    function Where(): Path { if Offered? then candidate.path else at }
  }

  // What the loop over a directory's names does with one entry.
  datatype Encounter = Descend | Pass | Record(finding: Finding) | Abort(fault: Fault)

  // The directory open accepts the entry.
  predicate Directory(node: Node) { node.Folder? || node.Unlisted? }

  function Meet(path: Path, node: Node): Encounter {
    match node
    case Folder(_, _) => Descend
    case Unlisted(_, _) => Descend
    case Shut(_, NotFound) => Pass
    case Shut(_, Loop) => Pass
    case Shut(_, Denied) => Record(SealedOff(path))
    case Shut(_, Other) => Abort(Io(Other))
    case File(_, Accepted(facts)) => Record(Offered(Candidate(path, facts)))
    case File(_, Unclassified) => Pass
    case File(_, Unstable) => Record(Noted(path, Unreadable))
    case File(_, Faulted(NotFound)) => Pass
    case File(_, Faulted(Denied)) => Record(Noted(path, PermissionDenied))
    case File(_, Faulted(kind)) => Abort(Io(kind))
    case Special(_) => Pass
    case FileShut(_, NotFound) => Pass
    case FileShut(_, Loop) => Pass
    case FileShut(_, Denied) => Record(Noted(path, PermissionDenied))
    case FileShut(_, Other) => Abort(Io(Other))
  }

  // What taking a directory off the stack does: reopening it from the Root and
  // listing it.
  datatype Opening = Listed(children: seq<Node>) | Skipped | Refused | Broken(fault: Fault)

  function Open(node: Node): Opening {
    match node
    case Folder(_, children) => Listed(children)
    case Unlisted(_, Denied) => Refused
    case Unlisted(_, kind) => Broken(Io(kind))
    case Shut(_, NotFound) => Skipped
    case Shut(_, Denied) => Refused
    case Shut(_, kind) => Broken(Io(kind))
    case _ => Broken(Io(Other))
  }

  /** The recursive walk. */

  // Everything found from a directory down: first its own entries, last name
  // first, then its subdirectories, first name first.
  function Survey(path: Path, node: Node): seq<Finding>
    decreases node, 1
  {
    match Open(node)
    case Listed(children) => [Entered(path)] + Entries(path, children) + Beneath(path, children)
    case Refused => [SealedOff(path)]
    case _ => []
  }

  function Recorded(at: Path, node: Node): seq<Finding> {
    match Meet(at, node)
    case Record(finding) => [finding]
    case _ => []
  }

  function Entries(path: Path, children: seq<Node>): seq<Finding> {
    if children == [] then [] else
      Entries(path, children[1..]) + Recorded(path + [children[0].name], children[0])
  }

  function Beneath(path: Path, children: seq<Node>): seq<Finding>
    decreases children, 0
  {
    if children == [] then [] else
      (if Directory(children[0])
       then Survey(path + [children[0].name], children[0]) else [])
      + Beneath(path, children[1..])
  }

  // Directory entries listed in all, and directories opened in all.
  function EntryCount(node: Node): nat
    decreases node, 1
  {
    if node.Folder? then |node.children| + EntriesBelow(node.children) else 0
  }

  function EntriesBelow(children: seq<Node>): nat
    decreases children, 0
  {
    if children == [] then 0 else EntryCount(children[0]) + EntriesBelow(children[1..])
  }

  function FolderCount(node: Node): nat
    decreases node, 1
  {
    1 + if node.Folder? then FoldersBelow(node.children) else 0
  }

  function FoldersBelow(children: seq<Node>): nat
    decreases children, 0
  {
    if children == [] then 0 else
      (if Directory(children[0]) then FolderCount(children[0]) else 0) + FoldersBelow(children[1..])
  }

  /** An independent reading: looking one path up. */

  function Lookup(node: Node, path: Path): Option<Node>
    decreases |path|
  {
    if path == [] then Some(node)
    else if node.Folder? then LookupIn(node.children, path) else None
  }

  function LookupIn(children: seq<Node>, path: Path): Option<Node>
    requires path != []
    decreases |path|, |children|
  {
    if children == [] then None
    else if children[0].name == path[0] then Lookup(children[0], path[1..])
    else LookupIn(children[1..], path)
  }

  // What the entry at a path says by itself: a directory that is opened is
  // entered or sealed off, anything else is what the name loop records of it.
  function Yield(path: Path, node: Node, taken: bool): Option<Finding> {
    if taken then
      (match Open(node)
       case Listed(_) => Some(Entered(path))
       case Refused => Some(SealedOff(path))
       case _ => None)
    else
      (match Meet(path, node)
       case Record(finding) => Some(finding)
       case _ => None)
  }

  // The finding is what looking its own path up from `base` yields.
  ghost predicate LooksUp(base: Path, node: Node, f: Finding) {
    && base <= f.Where()
    && Lookup(node, f.Where()[|base|..]).Some?
    && var n := Lookup(node, f.Where()[|base|..]).value;
       Yield(f.Where(), n, f.Where() == base || Directory(n)) == Some(f)
  }

  ghost predicate RecordedAt(path: Path, children: seq<Node>, f: Finding, i: int) {
    0 <= i < |children| && Meet(path + [children[i].name], children[i]) == Record(f)
  }

  ghost predicate FoundUnder(path: Path, children: seq<Node>, f: Finding, i: int) {
    0 <= i < |children| && Directory(children[i])
    && f in Survey(path + [children[i].name], children[i])
  }

  lemma {:induction false} EntriesFind(path: Path, children: seq<Node>, f: Finding)
    ensures f in Entries(path, children) <==> exists i :: RecordedAt(path, children, f, i)
  {
    if children != [] {
      EntriesFind(path, children[1..], f);
      if f in Entries(path, children[1..]) {
        var i :| RecordedAt(path, children[1..], f, i);
        assert RecordedAt(path, children, f, i + 1);
      }
      if Meet(path + [children[0].name], children[0]) == Record(f) {
        assert RecordedAt(path, children, f, 0);
      }
      if i :| RecordedAt(path, children, f, i) && i > 0 {
        assert RecordedAt(path, children[1..], f, i - 1);
      }
    }
  }

  lemma {:induction false} BelowFind(path: Path, children: seq<Node>, f: Finding)
    ensures f in Beneath(path, children) <==> exists i :: FoundUnder(path, children, f, i)
  {
    if children != [] {
      BelowFind(path, children[1..], f);
      if f in Beneath(path, children[1..]) {
        var i :| FoundUnder(path, children[1..], f, i);
        assert FoundUnder(path, children, f, i + 1);
      }
      if FoundUnder(path, children, f, 0) {
        assert f in Beneath(path, children);
      } else if f in Beneath(path, children) {
        assert f in Beneath(path, children[1..]);
      }
      if i :| FoundUnder(path, children, f, i) && i > 0 {
        assert FoundUnder(path, children[1..], f, i - 1);
      }
    }
  }

  lemma {:induction false} LookupInAt(children: seq<Node>, path: Path, i: nat)
    requires path != [] && i < |children| && children[i].name == path[0]
    requires Sorted(children)
    ensures LookupIn(children, path) == Lookup(children[i], path[1..])
    decreases |children|
  {
    if i > 0 {
      LookupInAt(children[1..], path, i - 1);
    }
  }

  lemma {:induction false} LookupInWhere(children: seq<Node>, path: Path) returns (i: nat)
    requires path != [] && LookupIn(children, path).Some?
    ensures i < |children| && children[i].name == path[0]
    ensures LookupIn(children, path) == Lookup(children[i], path[1..])
    decreases |children|
  {
    if children[0].name == path[0] {
      i := 0;
    } else {
      i := LookupInWhere(children[1..], path);
      i := i + 1;
    }
  }

  lemma Rest(base: Path, name: Name, path: Path)
    requires base + [name] <= path
    ensures base <= path && path[|base|..] == [name] + path[|base + [name]|..]
    ensures path[|base|..][0] == name && path[|base|..][1..] == path[|base + [name]|..]
  {
  }

  lemma RecordedLooksUp(base: Path, node: Node, f: Finding, i: int)
    requires node.Folder? && WellNamed(node) && RecordedAt(base, node.children, f, i)
    ensures LooksUp(base, node, f)
  {
    var c := node.children[i];
    Rest(base, c.name, f.Where());
    LookupInAt(node.children, f.Where()[|base|..], i);
  }

  lemma ChildLooksUp(base: Path, node: Node, f: Finding, i: int)
    requires node.Folder? && WellNamed(node) && 0 <= i < |node.children|
    requires LooksUp(base + [node.children[i].name], node.children[i], f)
    requires Directory(node.children[i])
    ensures LooksUp(base, node, f)
  {
    var c := node.children[i];
    Rest(base, c.name, f.Where());
    LookupInAt(node.children, f.Where()[|base|..], i);
    assert f.Where() != base;
  }

  lemma {:induction false} FoundLooksUp(base: Path, node: Node, f: Finding)
    requires WellNamed(node) && f in Survey(base, node)
    ensures LooksUp(base, node, f)
    decreases node
  {
    if node.Folder? && f != Entered(base) {
      EntriesFind(base, node.children, f);
      BelowFind(base, node.children, f);
      if i :| RecordedAt(base, node.children, f, i) {
        RecordedLooksUp(base, node, f, i);
      } else {
        assert f in Beneath(base, node.children);
        var i :| FoundUnder(base, node.children, f, i);
        FoundLooksUp(base + [node.children[i].name], node.children[i], f);
        ChildLooksUp(base, node, f, i);
      }
    }
  }

  lemma {:induction false} LooksUpFound(base: Path, node: Node, f: Finding)
    requires WellNamed(node) && LooksUp(base, node, f)
    ensures f in Survey(base, node)
    decreases node
  {
    var rest := f.Where()[|base|..];
    assert f.Where() == base + rest;
    if node.Folder? && rest != [] {
      EntriesFind(base, node.children, f);
      BelowFind(base, node.children, f);
      var i := LookupInWhere(node.children, rest);
      var c := node.children[i];
      assert base + [c.name] <= f.Where();
      Rest(base, c.name, f.Where());
      if Directory(c) {
        LooksUpFound(base + [c.name], c, f);
        assert FoundUnder(base, node.children, f, i);
      } else {
        assert f.Where() == base + [c.name];
        assert RecordedAt(base, node.children, f, i);
      }
    }
  }

  // The walk finds exactly what looking each path up yields: every readable
  // directory is entered, every acceptable file is offered, nothing else is.
  lemma SurveyExact(root: Node, f: Finding)
    requires WellNamed(root)
    ensures f in Survey([], root) <==> LooksUp([], root, f)
  {
    if f in Survey([], root) { FoundLooksUp([], root, f); }
    if LooksUp([], root, f) { LooksUpFound([], root, f); }
  }

  /** Nothing is found twice. */

  ghost predicate Apart(fs: seq<Finding>) {
    forall i, j | 0 <= i < j < |fs| :: fs[i].Where() != fs[j].Where()
  }

  lemma ApartAppend(a: seq<Finding>, b: seq<Finding>)
    requires Apart(a) && Apart(b)
    requires forall x <- a, y <- b :: x.Where() != y.Where()
    ensures Apart(a + b)
  {
    forall i, j | 0 <= i < j < |a + b| ensures (a + b)[i].Where() != (a + b)[j].Where() {
      if i < |a| <= j { assert a[i] in a && b[j - |a|] in b; }
    }
  }

  lemma {:induction false} EntriesApart(path: Path, children: seq<Node>)
    requires Sorted(children)
    ensures Apart(Entries(path, children))
  {
    if children != [] {
      EntriesApart(path, children[1..]);
      forall f <- Entries(path, children[1..]) ensures f.Where() != path + [children[0].name] {
        EntriesFind(path, children[1..], f);
        var i :| RecordedAt(path, children[1..], f, i);
        assert f.Where()[|path|] == children[1..][i].name == children[i + 1].name;
      }
      ApartAppend(Entries(path, children[1..]), Recorded(path + [children[0].name], children[0]));
    }
  }

  lemma {:induction false} BelowApart(path: Path, children: seq<Node>)
    requires Sorted(children) && forall c <- children :: WellNamed(c)
    ensures Apart(Beneath(path, children))
    decreases children, 0
  {
    if children != [] {
      var at := path + [children[0].name];
      BelowApart(path, children[1..]);
      if Directory(children[0]) {
        SurveyApart(at, children[0]);
        forall f <- Survey(at, children[0]), g <- Beneath(path, children[1..]) ensures f.Where() != g.Where() {
          FoundLooksUp(at, children[0], f);
          BelowFind(path, children[1..], g);
          var i :| FoundUnder(path, children[1..], g, i);
          FoundLooksUp(path + [children[1..][i].name], children[1..][i], g);
          assert f.Where()[|path|] == children[0].name && g.Where()[|path|] == children[i + 1].name;
        }
        ApartAppend(Survey(at, children[0]), Beneath(path, children[1..]));
      }
    }
  }

  // What the entries and what the subdirectories of one directory yield.
  lemma PartsApart(path: Path, children: seq<Node>, f: Finding, g: Finding)
    requires Sorted(children) && forall c <- children :: WellNamed(c)
    requires f in Entries(path, children) && g in Beneath(path, children)
    ensures f.Where() != g.Where()
  {
    hide Survey, Entries, Beneath;
    EntriesFind(path, children, f);
    BelowFind(path, children, g);
    var i :| RecordedAt(path, children, f, i);
    var j :| FoundUnder(path, children, g, j);
    FoundLooksUp(path + [children[j].name], children[j], g);
    assert f.Where()[|path|] == children[i].name && g.Where()[|path|] == children[j].name;
  }

  lemma Deeper(path: Path, children: seq<Node>, f: Finding)
    requires forall c <- children :: WellNamed(c)
    requires f in Entries(path, children) + Beneath(path, children)
    ensures |f.Where()| > |path|
  {
    EntriesFind(path, children, f);
    BelowFind(path, children, f);
    if i :| FoundUnder(path, children, f, i) {
      FoundLooksUp(path + [children[i].name], children[i], f);
    }
  }

  lemma {:induction false} SurveyApart(path: Path, node: Node)
    requires WellNamed(node)
    ensures Apart(Survey(path, node))
    decreases node, 1
  {
    if node.Folder? {
      var entries, below := Entries(path, node.children), Beneath(path, node.children);
      EntriesApart(path, node.children);
      BelowApart(path, node.children);
      forall f <- entries, g <- below ensures f.Where() != g.Where() {
        PartsApart(path, node.children, f, g);
      }
      ApartAppend(entries, below);
      forall f <- entries + below ensures f.Where() != path {
        Deeper(path, node.children, f);
      }
      ApartAppend([Entered(path)], entries + below);
      assert Survey(path, node) == [Entered(path)] + (entries + below);
    }
  }
}
