/**
 Publishing a grid rendition: what a cache hit proves, wherever an earlier
 attempt stopped and whatever was written to the source meanwhile.
 */
module RenditionCache {
  import opened Wrappers

  type Content = seq<nat>

  const MAX_GRID_BYTES := 8 * 1024 * 1024

  // The foreign calls: fingerprints, rendering, and decoding what was rendered.
  datatype Tools = Tools(fingerprint: Content -> string, render: Content -> Option<Content>, decodes: Content -> bool)

  ghost predicate Sound(tools: Tools) {
    && (forall a: Content, b: Content {:trigger tools.fingerprint(a), tools.fingerprint(b)} |
          tools.fingerprint(a) == tools.fingerprint(b) :: a == b)
    && (forall c: Content | tools.render(c).Some? ::
          tools.decodes(tools.render(c).value) && 0 < |tools.render(c).value| <= MAX_GRID_BYTES)
  }

  // Such tools exist, and ones that render different sources differently: strokes
  // tell any two contents apart.

  function Strokes(n: nat): string { if n == 0 then "," else "|" + Strokes(n - 1) }

  function Written(c: Content): string { if c == [] then "" else Strokes(c[0]) + Written(c[1..]) }

  lemma {:induction false} StrokesApart(a: nat, b: nat, x: string, y: string)
    requires Strokes(a) + x == Strokes(b) + y
    ensures a == b && x == y
  {
    assert (Strokes(a) + x)[0] == Strokes(a)[0] && (Strokes(b) + y)[0] == Strokes(b)[0];
    assert (Strokes(a) + x)[1..] == Strokes(a)[1..] + x && (Strokes(b) + y)[1..] == Strokes(b)[1..] + y;
    if a > 0 && b > 0 { StrokesApart(a - 1, b - 1, x, y); }
  }

  lemma {:induction false} WrittenApart(a: Content, b: Content)
    requires Written(a) == Written(b)
    ensures a == b
  {
    if a != [] && b != [] {
      StrokesApart(a[0], b[0], Written(a[1..]), Written(b[1..]));
      WrittenApart(a[1..], b[1..]);
      assert a == [a[0]] + a[1..] && b == [b[0]] + b[1..];
    }
  }

  lemma SoundExists(a: Content, b: Content) returns (tools: Tools)
    requires a != b
    ensures Sound(tools) && tools.render(a).Some? && tools.render(b).Some? && tools.render(a) != tools.render(b)
  {
    tools := Tools(Written, (c: Content) => Some(if c == a then [1] else [2]), (c: Content) => true);
    forall x: Content, y: Content {:trigger tools.fingerprint(x), tools.fingerprint(y)} | tools.fingerprint(x) == tools.fingerprint(y)
      ensures x == y
    {
      WrittenApart(x, y);
    }
  }

  // The record beside a grid rendition.
  datatype Integrity = Integrity(version: string, source: string, output: string, length: nat)

  const GRID_PROVIDER_VERSION := "still-grid-v1"

  // A record is true if it was made of a rendering.
  ghost predicate True(tools: Tools, x: Integrity) {
    exists c: Content :: Made(tools, x, c)
  }

  ghost predicate Made(tools: Tools, x: Integrity, c: Content) {
    && tools.render(c).Some?
    && x.source == tools.fingerprint(c)
    && x.output == tools.fingerprint(tools.render(c).value)
    && x.length == |tools.render(c).value|
  }

  datatype Files = Files(target: Option<Content>, integrity: Option<Integrity>)

  // What a later request accepts as cached.
  predicate Hit(tools: Tools, files: Files, expected: string) {
    && files.target.Some? && files.integrity.Some?
    && 0 < |files.target.value| <= MAX_GRID_BYTES
    && files.integrity.value.version == GRID_PROVIDER_VERSION
    && files.integrity.value.source == expected
    && files.integrity.value.length == |files.target.value|
    && tools.fingerprint(files.target.value) == files.integrity.value.output
    && tools.decodes(files.target.value)
  }

  ghost predicate Truthful(tools: Tools, files: Files) {
    files.integrity.Some? ==> True(tools, files.integrity.value)
  }

  // A hit is the rendering of the very source that was asked for.
  lemma HitIsRendering(tools: Tools, files: Files, source: Content)
    requires Sound(tools) && Truthful(tools, files) && Hit(tools, files, tools.fingerprint(source))
    ensures tools.render(source) == Some(files.target.value)
  {
    var c :| Made(tools, files.integrity.value, c);
    assert c == source;
  }

  // With a true record there is a hit exactly if the record is of this provider
  // version and this source, and the rendering of the source stands beside it.
  lemma HitExactly(tools: Tools, files: Files, source: Content)
    requires Sound(tools) && Truthful(tools, files)
    ensures Hit(tools, files, tools.fingerprint(source)) <==>
      && files.target.Some? && files.target == tools.render(source) && files.integrity.Some?
      && files.integrity.value.version == "still-grid-v1" && files.integrity.value.source == tools.fingerprint(source)
  {
    if files.integrity.Some? {
      var c :| Made(tools, files.integrity.value, c);
      if files.integrity.value.source == tools.fingerprint(source) {
        assert c == source;
      }
    }
  }

  function RecordOf(tools: Tools, expected: string, made: Content): Integrity {
    Integrity(GRID_PROVIDER_VERSION, expected, tools.fingerprint(made), |made|)
  }

  // What an attempt publishes that read `shown` when it rendered.
  function Published(tools: Tools, expected: string, shown: Content): Files
    requires tools.render(shown).Some?
  {
    Files(tools.render(shown), Some(RecordOf(tools, expected, tools.render(shown).value)))
  }

  // It is a hit in any case, and true exactly if the source renders the same as
  // what was read instead of it.
  lemma PublishedExact(tools: Tools, source: Content, shown: Content)
    requires Sound(tools) && tools.render(shown).Some?
    ensures var files := Published(tools, tools.fingerprint(source), shown);
      && Hit(tools, files, tools.fingerprint(source))
      && (Truthful(tools, files) <==> tools.render(source) == tools.render(shown))
  {
    var made := tools.render(shown).value;
    var x := RecordOf(tools, tools.fingerprint(source), made);
    if tools.render(source) == tools.render(shown) {
      assert Made(tools, x, source);
    } else {
      forall c: Content ensures !Made(tools, x, c) {
        if tools.fingerprint(c) == tools.fingerprint(source) {
          assert tools.render(c) != tools.render(shown);
        }
      }
    }
  }

  /** The steps of one attempt, under the permit of the path. */

  // How far it is: nothing looked at, what is there is no hit, one or both files
  // removed, rendered aside, the rendering renamed, a hit in place, served, given up.
  datatype Stage = Ready | Stale | Untargeted | Bare | Rendered(shown: Content) | Placed(shown: Content) | Complete | Done | Left

  // Rendering reads the source twice: once to decode it, then for its fingerprint.
  datatype FileStep =
    | Looks | RemovesTarget | RemovesRecord | Renders(shown: Content, after: Content)
    | PlacesTarget | PlacesRecord | TakesBack | Serves | GivesUp

  // A step that is not next does nothing.
  function Advance(tools: Tools, expected: string, at: Stage, files: Files, step: FileStep): (Stage, Files) {
    match step
    case Looks => if at.Ready? then (if Hit(tools, files, expected) then Complete else Stale, files) else (at, files)
    case RemovesTarget => if at.Stale? then (Untargeted, files.(target := None)) else (at, files)
    case RemovesRecord => if at.Untargeted? then (Bare, files.(integrity := None)) else (at, files)
    case Renders(shown, after) =>
      if at.Bare? && tools.render(shown).Some? && tools.fingerprint(after) == expected then (Rendered(shown), files) else (at, files)
    case PlacesTarget => if at.Rendered? then (Placed(at.shown), files.(target := tools.render(at.shown))) else (at, files)
    case PlacesRecord =>
      if at.Placed? && tools.render(at.shown).Some?
      then (Complete, files.(integrity := Some(RecordOf(tools, expected, tools.render(at.shown).value)))) else (at, files)
    case TakesBack => if at.Placed? then (Left, files.(target := None)) else (at, files)
    case Serves => if at.Complete? then (Done, files) else (at, files)
    case GivesUp => if at.Done? then (at, files) else (Left, files)
  }

  // A rendering is kept exactly if there is one and the source is then what it is
  // expected to be.
  lemma RenderedExactly(tools: Tools, source: Content, files: Files, shown: Content, after: Content)
    requires Sound(tools)
    ensures Advance(tools, tools.fingerprint(source), Bare, files, Renders(shown, after))
         == (if tools.render(shown).Some? && after == source then Rendered(shown) else Bare, files)
  {
  }

  ghost function Attempt(tools: Tools, expected: string, at: Stage, files: Files, steps: seq<FileStep>): (Stage, Files)
    decreases |steps|
  {
    if steps == [] then (at, files) else
      var (x, y) := Attempt(tools, expected, at, files, steps[..|steps| - 1]);
      Advance(tools, expected, x, y, steps[|steps| - 1])
  }

  lemma OneStep(tools: Tools, expected: string, at: Stage, files: Files, steps: seq<FileStep>, step: FileStep)
    ensures var (x, y) := Attempt(tools, expected, at, files, steps);
      Attempt(tools, expected, at, files, steps + [step]) == Advance(tools, expected, x, y, step)
  {
    hide Advance;
    assert (steps + [step])[..|steps|] == steps;
  }

  lemma FirstStep(tools: Tools, expected: string, at: Stage, files: Files, step: FileStep)
    ensures Attempt(tools, expected, at, files, []) == (at, files)
    ensures Attempt(tools, expected, at, files, [step]) == Advance(tools, expected, at, files, step)
  {
    hide Advance;
    assert [step][..0] == [];
  }

  lemma {:induction false} AttemptJoins(tools: Tools, expected: string, at: Stage, files: Files, a: seq<FileStep>, b: seq<FileStep>)
    ensures var (x, y) := Attempt(tools, expected, at, files, a);
      Attempt(tools, expected, at, files, a + b) == Attempt(tools, expected, x, y, b)
    decreases |b|
  {
    hide Advance;
    if b == [] {
      assert a + b == a;
    } else {
      assert (a + b)[..|a + b| - 1] == a + b[..|b| - 1];
      AttemptJoins(tools, expected, at, files, a, b[..|b| - 1]);
    }
  }

  // How an attempt ends: served, failed, or the process stopped.
  datatype Outcome = Served | Failed | Stopped

  class Entry {
    ghost const tools: Tools
    var target: Option<Content>
    var integrity: Option<Integrity>

    ghost function View(): Files
      reads this
    {
      Files(target, integrity)
    }

    constructor (ghost tools: Tools)
      ensures this.tools == tools && View() == Files(None, None) && Truthful(tools, View())
    {
      this.tools, target, integrity := tools, None, None;
    }

    // One authorization under the path's permit.  The source may be written to at
    // any time: it is read for evidence, for rendering, and for evidence again.
    // Each file step may fail, and the process may stop between any two.
    method Authorize(how: Tools, source: Content, shown: Content, after: Content, expected: string)
      returns (outcome: Outcome, ghost steps: seq<FileStep>)
      requires how == tools && Sound(tools)
      modifies this
      ensures how.fingerprint(source) != expected ==> !outcome.Served? && steps == []
      ensures Attempt(tools, expected, Ready, old(View()), steps).1 == View()
      ensures outcome.Served? <==> Attempt(tools, expected, Ready, old(View()), steps).0 == Done
      ensures forall x <- steps :: x.Renders? ==> x == Renders(shown, after)
      ensures outcome.Served? ==> Hit(tools, View(), expected)
      ensures old(Hit(tools, View(), expected)) ==> View() == old(View())
      ensures how.fingerprint(after) != expected && !old(Hit(tools, View(), expected)) ==> !outcome.Served?
      ensures outcome.Served? && !old(Hit(tools, View(), expected)) ==>
        && how.render(shown).Some? && View() == Published(how, expected, shown)
        && (Truthful(tools, View()) <==> how.render(source) == how.render(shown))
      ensures View().integrity.None? || View().integrity == old(View().integrity)
        || (how.render(shown).Some? && View() == Published(how, expected, shown)
            && (Truthful(tools, View()) <==> how.render(source) == how.render(shown)))
      ensures old(Truthful(tools, View())) && how.render(source) == how.render(shown) ==> Truthful(tools, View())
    {
      var stop: bool := *;
      if stop { return Stopped, []; }
      if how.fingerprint(source) != expected {
        return Failed, [];
      }
      ghost var before := View();
      FirstStep(tools, expected, Ready, before, Looks);
      steps := [Looks];
      if Hit(how, Files(target, integrity), expected) {
        stop := *;
        ghost var last := if stop then GivesUp else Serves;
        OneStep(tools, expected, Ready, before, steps, last);
        steps := steps + [last];
        outcome := if stop then Failed else Served;
        return;
      }
      ghost var more;
      outcome, more := Clear(how, expected);
      AttemptJoins(tools, expected, Ready, before, steps, more);
      steps := steps + more;
      if outcome != Served {
        return;
      }
      outcome, more := Publish(how, source, shown, after, expected);
      AttemptJoins(tools, expected, Ready, before, steps, more);
      steps := steps + more;
    }

    // Remove what is there and was no hit.
    method Clear(how: Tools, ghost expected: string) returns (outcome: Outcome, ghost steps: seq<FileStep>)
      requires how == tools
      modifies this
      ensures Attempt(tools, expected, Stale, old(View()), steps).1 == View()
      ensures outcome.Served? ==> View() == Files(None, None) && Attempt(tools, expected, Stale, old(View()), steps).0 == Bare
      ensures !outcome.Served? ==> Attempt(tools, expected, Stale, old(View()), steps).0 != Done
      ensures forall x <- steps :: !x.Renders?
      ensures integrity == old(integrity) || integrity.None?
    {
      ghost var before := View();
      var stop: bool, fails: bool := *, *;
      if stop { return Stopped, []; }
      FirstStep(tools, expected, Stale, before, GivesUp);
      FirstStep(tools, expected, Stale, before, RemovesTarget);
      if target.Some? {
        if fails { return Failed, [GivesUp]; }
        target := None;
      }
      steps := [RemovesTarget];
      stop, fails := *, *;
      if stop { return Stopped, steps; }
      OneStep(tools, expected, Stale, before, steps, GivesUp);
      OneStep(tools, expected, Stale, before, steps, RemovesRecord);
      if integrity.Some? {
        if fails { return Failed, steps + [GivesUp]; }
        integrity := None;
      }
      return Served, steps + [RemovesRecord];
    }

    // Render aside, record aside, then rename the rendering and the record.
    method Publish(how: Tools, ghost source: Content, shown: Content, after: Content, expected: string)
      returns (outcome: Outcome, ghost steps: seq<FileStep>)
      requires how == tools && Sound(tools) && View() == Files(None, None) && how.fingerprint(source) == expected
      modifies this
      ensures Attempt(tools, expected, Bare, Files(None, None), steps).1 == View()
      ensures outcome.Served? <==> Attempt(tools, expected, Bare, Files(None, None), steps).0 == Done
      ensures forall x <- steps :: x.Renders? ==> x == Renders(shown, after)
      ensures how.fingerprint(after) != expected || how.render(shown).None? ==> !outcome.Served? && View() == Files(None, None)
      ensures View() == Files(None, None) || View() == Files(how.render(shown), None)
        || (how.render(shown).Some? && View() == Published(how, expected, shown))
      ensures outcome.Served? ==> View().integrity.Some?
      ensures View().integrity.Some? ==>
        && Hit(tools, View(), expected)
        && (Truthful(tools, View()) <==> how.render(source) == how.render(shown))
    {
      hide Hit, Truthful, Attempt, RecordOf, Sound;
      var stop: bool, fails: bool := *, *;
      ghost var empty := Files(None, None);
      FirstStep(tools, expected, Bare, empty, GivesUp);
      if stop { return Stopped, []; }
      FirstStep(tools, expected, Bare, empty, Renders(shown, after));
      var rendered := how.render(shown);
      if fails || rendered.None? || how.fingerprint(after) != expected {
        return Failed, [GivesUp];
      }
      PublishedExact(tools, source, shown);
      steps := [Renders(shown, after)];
      OneStep(tools, expected, Bare, empty, steps, GivesUp);
      OneStep(tools, expected, Bare, empty, steps, PlacesTarget);
      var output := rendered.value;
      var record := RecordOf(how, expected, output);
      stop, fails := *, *;
      if stop { return Stopped, steps; }
      if fails { return Failed, steps + [GivesUp]; }
      target := Some(output);
      steps := steps + [PlacesTarget];
      OneStep(tools, expected, Bare, empty, steps, GivesUp);
      OneStep(tools, expected, Bare, empty, steps, TakesBack);
      OneStep(tools, expected, Bare, empty, steps, PlacesRecord);
      stop, fails := *, *;
      if stop { return Stopped, steps; }
      if fails {
        // The record could not be renamed: take the rendering back, if that works.
        var kept: bool := *;
        if !kept { target := None; }
        return Failed, steps + [if kept then GivesUp else TakesBack];
      }
      integrity := Some(record);
      steps := steps + [PlacesRecord];
      OneStep(tools, expected, Bare, empty, steps, GivesUp);
      OneStep(tools, expected, Bare, empty, steps, Serves);
      stop, fails := *, *;
      if stop { return Stopped, steps; }
      if fails { return Failed, steps + [GivesUp]; }
      return Served, steps + [Serves];
    }
  }
}
