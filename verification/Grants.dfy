/**
 The store of security-scoped grants: what is persisted, what is being accessed,
 and what happens when any outside call fails.
 */
module Grants {
  import opened Wrappers

  type Key = nat
  type Url = nat
  type Data = nat

  datatype Provisional = Provisional(library: Key, data: Data)

  datatype Persisted = Persisted(libraries: map<Key, Data>, roots: map<Key, map<Key, Data>>, provisional: map<Key, Provisional>)

  // How the outside calls of one activation answer: resolving the bookmark (and
  // whether it is stale), making a fresh one, writing it, starting access.
  datatype Answer = Answer(resolved: Option<Url>, stale: bool, refreshed: Option<Data>, written: bool, started: bool)

  datatype LibraryGrant = LibraryGrant(library: Key, data: Data, previous: Option<Data>)
  datatype RootGrant = RootGrant(token: Key, library: Key, data: Data)

  function RootsOf(p: Persisted, library: Key): map<Key, Data> {
    if library in p.roots then p.roots[library] else map[]
  }

  function WithRoot(p: Persisted, library: Key, root: Key, data: Data): Persisted {
    p.(roots := p.roots[library := RootsOf(p, library)[root := data]])
  }

  /** The URLs of a table, with repetition. */

  ghost function Urls(m: map<Key, Url>): multiset<Url>
    decreases |m|
  {
    if m == map[] then multiset{} else
      var k :| k in m;
      multiset{m[k]} + Urls(m - {k})
  }

  lemma TwoOut(m: map<Key, Url>, a: Key, b: Key)
    requires a in m && b in m && a != b
    ensures m - {a} - {b} == m - {b} - {a}
    ensures b in m - {a} && (m - {a})[b] == m[b] && |m - {a}| < |m|
  {
    assert (m - {a}).Keys == m.Keys - {a};
    assert |m.Keys| == |m| && |(m - {a}).Keys| == |m - {a}|;
  }

  lemma {:induction false} UrlsWithout(m: map<Key, Url>, k: Key)
    requires k in m
    ensures Urls(m) == multiset{m[k]} + Urls(m - {k})
    decreases |m|
  {
    var first :| first in m && Urls(m) == multiset{m[first]} + Urls(m - {first});
    hide Urls;
    if first != k {
      TwoOut(m, first, k);
      TwoOut(m, k, first);
      UrlsWithout(m - {first}, k);
      UrlsWithout(m - {k}, first);
    }
  }

  lemma UrlsPut(m: map<Key, Url>, k: Key, u: Url)
    requires k !in m
    ensures Urls(m[k := u]) == multiset{u} + Urls(m)
  {
    UrlsWithout(m[k := u], k);
    assert m[k := u] - {k} == m;
  }

  lemma NoUrls()
    ensures Urls(map[]) == multiset{}
  {
  }

  lemma Cancel(a: multiset<Url>, b: multiset<Url>, u: Url)
    requires a + multiset{u} == b + multiset{u}
    ensures a == b
  {
    assert a == (a + multiset{u}) - multiset{u} == (b + multiset{u}) - multiset{u} == b;
  }

  // All URLs that the three tables hold.
  ghost function Tables(library: Option<Url>, roots: map<Key, Url>, provisional: map<Key, Url>): multiset<Url> {
    One(library) + Urls(roots) + Urls(provisional)
  }

  ghost function One(library: Option<Url>): multiset<Url> {
    if library.Some? then multiset{library.value} else multiset{}
  }

  lemma Regroup(a: multiset<Url>, b: multiset<Url>, c: multiset<Url>, d: multiset<Url>)
    ensures a + b + c + d == c + (b + (a + d))
  {
  }

  lemma NoTables()
    ensures Tables(None, map[], map[]) == multiset{}
  {
  }

  // Where an activation puts a refreshed bookmark.
  datatype Slot = LibrarySlot(library: Key) | RootSlot(owner: Key, root: Key) | ProvisionalSlot(token: Key, origin: Key)

  function Refreshed(p: Persisted, slot: Slot, data: Data): Persisted {
    match slot
    case LibrarySlot(library) => p.(libraries := p.libraries[library := data])
    case RootSlot(library, root) => WithRoot(p, library, root, data)
    case ProvisionalSlot(token, library) => p.(provisional := p.provisional[token := Provisional(library, data)])
  }

  // What is stored for one Root of one library.
  function StoredRoot(p: Persisted, library: Key, root: Key): Option<Data> {
    if library in p.roots && root in p.roots[library] then Some(p.roots[library][root]) else None
  }

  // Only the bookmarks of one Root differ.
  ghost predicate OnlyRoot(p: Persisted, q: Persisted, library: Key, root: Key) {
    forall l, r | l != library || r != root :: StoredRoot(q, l, r) == StoredRoot(p, l, r)
  }

  // A refreshed bookmark is stored in its place, and everything else stands.
  lemma RefreshedMeans(p: Persisted, slot: Slot, data: Data)
    ensures var r := Refreshed(p, slot, data);
      match slot
      case LibrarySlot(library) =>
        && Replaced(r, library) == Some(data) && (forall k | k != library :: Replaced(r, k) == Replaced(p, k))
        && r.roots == p.roots && r.provisional == p.provisional
      case RootSlot(library, root) =>
        && StoredRoot(r, library, root) == Some(data) && OnlyRoot(p, r, library, root)
        && r.libraries == p.libraries && r.provisional == p.provisional
      case ProvisionalSlot(token, library) =>
        && token in r.provisional && r.provisional[token] == Provisional(library, data)
        && r.provisional - {token} == p.provisional - {token}
        && r.libraries == p.libraries && r.roots == p.roots
  {
    if slot.ProvisionalSlot? {
      var q := Refreshed(p, slot, data).provisional;
      assert q - {slot.token} == p.provisional - {slot.token};
    }
  }

  lemma WithRootMeans(p: Persisted, library: Key, root: Key, data: Data)
    ensures var r := WithRoot(p, library, root, data);
      && StoredRoot(r, library, root) == Some(data) && OnlyRoot(p, r, library, root)
      && r.libraries == p.libraries && r.provisional == p.provisional
  {
  }

  lemma CommittedMeans(p: Persisted, grant: RootGrant, root: Key)
    ensures var r := WithRoot(p.(provisional := p.provisional - {grant.token}), grant.library, root, grant.data);
      && StoredRoot(r, grant.library, root) == Some(grant.data) && OnlyRoot(p, r, grant.library, root)
      && r.libraries == p.libraries && r.provisional == p.provisional - {grant.token}
  {
  }

  // The activation stores a fresh bookmark.
  predicate Renews(a: Answer) { a.resolved.Some? && a.stale && a.refreshed.Some? }

  // The activation has to give up the disk.
  predicate Breaks(a: Answer, quarantined: bool) { Renews(a) && (quarantined || !a.written) }

  predicate Works(a: Answer, quarantined: bool) {
    a.resolved.Some? && (a.stale ==> a.refreshed.Some? && a.written && !quarantined) && a.started
  }

  lemma TablesLibrary(u: Url, roots: map<Key, Url>, provisional: map<Key, Url>)
    ensures Tables(Some(u), roots, provisional) == multiset{u} + Tables(None, roots, provisional)
  {
  }

  lemma TablesRoot(library: Option<Url>, roots: map<Key, Url>, provisional: map<Key, Url>, k: Key, u: Url)
    requires k !in roots
    ensures Tables(library, roots[k := u], provisional) == Tables(library, roots, provisional) + multiset{u}
  {
    UrlsPut(roots, k, u);
  }

  lemma TablesProvisional(library: Option<Url>, roots: map<Key, Url>, provisional: map<Key, Url>, k: Key, u: Url)
    requires k !in provisional
    ensures Tables(library, roots, provisional[k := u]) == Tables(library, roots, provisional) + multiset{u}
  {
    UrlsPut(provisional, k, u);
  }

  lemma TablesRootOut(library: Option<Url>, roots: map<Key, Url>, provisional: map<Key, Url>, k: Key)
    requires k in roots
    ensures Tables(library, roots, provisional) == Tables(library, roots - {k}, provisional) + multiset{roots[k]}
  {
    UrlsWithout(roots, k);
  }

  lemma TablesProvisionalOut(library: Option<Url>, roots: map<Key, Url>, provisional: map<Key, Url>, k: Key)
    requires k in provisional
    ensures Tables(library, roots, provisional) == Tables(library, roots, provisional - {k}) + multiset{provisional[k]}
  {
    UrlsWithout(provisional, k);
  }

  // What a pass over a library's Roots leaves active, and whether the disk was
  // given up on the way.
  datatype Pass = Pass(urls: map<Key, Url>, quarantined: bool)

  function PassOver(order: seq<Key>, answers: seq<Answer>, start: Pass): Pass
    requires |order| == |answers|
    decreases |order|
  {
    if order == [] then start else
      var n := |order| - 1;
      PassStep(PassOver(order[..n], answers[..n], start), order[n], answers[n])
  }

  function PassStep(before: Pass, root: Key, a: Answer): Pass {
    if Breaks(a, before.quarantined) then Pass(map[], true)
    else if Works(a, before.quarantined) then before.(urls := before.urls[root := a.resolved.value])
    else before
  }

  lemma PassNone(start: Pass)
    ensures PassOver([], [], start) == start
  {
  }

  lemma PassNext(order: seq<Key>, answers: seq<Answer>, start: Pass, i: nat)
    requires |order| == |answers| && i < |order|
    ensures PassOver(order[..i + 1], answers[..i + 1], start) == PassStep(PassOver(order[..i], answers[..i], start), order[i], answers[i])
  {
    assert order[..i + 1][..i] == order[..i] && answers[..i + 1][..i] == answers[..i];
  }

  // Access starts without touching the disk.
  predicate Plain(a: Answer) { a.resolved.Some? && !a.stale && a.started }

  ghost predicate Overtaken(answers: seq<Answer>, i: nat) {
    exists j: nat :: i < j < |answers| && Renews(answers[j])
  }

  // A last answer that renews nothing overtakes nobody.
  lemma OvertakenFront(answers: seq<Answer>, i: nat)
    requires answers != [] && i < |answers| - 1 && !Renews(answers[|answers| - 1])
    ensures Overtaken(answers, i) <==> Overtaken(answers[..|answers| - 1], i)
  {
    var n := |answers| - 1;
    var front := answers[..n];
    if Overtaken(answers, i) {
      var j: nat :| i < j < |answers| && Renews(answers[j]);
      assert j < n;
      assert Renews(front[j]);
    }
    if Overtaken(front, i) {
      var j: nat :| i < j < n && Renews(front[j]);
      assert Renews(answers[j]);
    }
  }

  // A pass that gives up the disk leaves nothing active exactly if no Root was
  // opened after its last attempt to renew a bookmark.
  lemma {:induction false} PassLeaves(order: seq<Key>, answers: seq<Answer>)
    requires |order| == |answers| && PassOver(order, answers, Pass(map[], false)).quarantined
    ensures PassOver(order, answers, Pass(map[], false)).urls == map[]
       <==> forall i: nat | i < |answers| && Plain(answers[i]) :: Overtaken(answers, i)
    decreases |order|
  {
    if order != [] {
      var n := |order| - 1;
      var last, front := answers[n], answers[..n];
      hide Overtaken;
      if !Renews(last) {
        PassLeaves(order[..n], front);
        forall i: nat | i < n ensures answers[i] == front[i] && (Overtaken(answers, i) <==> Overtaken(front, i)) {
          OvertakenFront(answers, i);
        }
        LastOvertaken(answers);
        if Plain(last) {
          assert order[n] in PassOver(order, answers, Pass(map[], false)).urls;
        }
      } else {
        LastRenews(answers);
      }
    }
  }

  lemma LastOvertaken(answers: seq<Answer>)
    requires answers != []
    ensures !Overtaken(answers, |answers| - 1)
  {
  }

  lemma LastRenews(answers: seq<Answer>)
    requires answers != [] && Renews(answers[|answers| - 1])
    ensures forall i: nat | i < |answers| - 1 :: Overtaken(answers, i)
    ensures !Plain(answers[|answers| - 1])
  {
  }

  // Which Roots a pass leaves active: while the disk stands, those that work;
  // once it was given up, those opened without a new bookmark and not followed
  // by an attempt to store one.
  ghost predicate PassFor(order: seq<Key>, answers: seq<Answer>, from: bool, p: Pass)
    requires |order| == |answers|
  {
    && (p.quarantined <==> from || exists i: nat :: i < |answers| && Renews(answers[i]) && !answers[i].written)
    && (forall k <- p.urls :: k in order)
    && (forall i: nat | i < |order| ::
          (order[i] in p.urls <==> if p.quarantined then Plain(answers[i]) && !Overtaken(answers, i) else Works(answers[i], false)))
    && (forall i: nat | i < |order| && order[i] in p.urls :: answers[i].resolved == Some(p.urls[order[i]]))
  }

  lemma {:induction false} PassMeans(order: seq<Key>, answers: seq<Answer>, from: bool)
    requires |order| == |answers|
    requires forall i, j | 0 <= i < j < |order| :: order[i] != order[j]
    ensures PassFor(order, answers, from, PassOver(order, answers, Pass(map[], from)))
    decreases |order|
  {
    if order != [] {
      var n := |order| - 1;
      var front, last := answers[..n], answers[n];
      var before := PassOver(order[..n], front, Pass(map[], from));
      PassMeans(order[..n], front, from);
      PassLast(order, answers, from, before);
    }
  }

  lemma PassLast(order: seq<Key>, answers: seq<Answer>, from: bool, before: Pass)
    requires |order| == |answers| && order != []
    requires forall i, j | 0 <= i < j < |order| :: order[i] != order[j]
    requires PassFor(order[..|order| - 1], answers[..|order| - 1], from, before)
    ensures PassFor(order, answers, from, PassStep(before, order[|order| - 1], answers[|order| - 1]))
  {
    var n := |order| - 1;
    var front, last := answers[..n], answers[n];
    var after := PassStep(before, order[n], last);
    assert forall i: nat | i < n :: answers[i] == front[i] && order[i] == order[..n][i] && order[i] != order[n];
    assert after.quarantined <==> from || exists i: nat :: i < |answers| && Renews(answers[i]) && !answers[i].written by {
      if exists i: nat :: i < |answers| && Renews(answers[i]) && !answers[i].written {
        var i: nat :| i < |answers| && Renews(answers[i]) && !answers[i].written;
        if i < n { assert Renews(front[i]) && !front[i].written; }
      }
      if exists i: nat :: i < n && Renews(front[i]) && !front[i].written {
        var i: nat :| i < n && Renews(front[i]) && !front[i].written;
        assert Renews(answers[i]) && !answers[i].written;
      }
    }
    assert order[n] !in before.urls;
    LastOvertaken(answers);
    if Renews(last) {
      LastRenews(answers);
    } else {
      forall i: nat | i < n ensures Overtaken(answers, i) <==> Overtaken(front, i) {
        OvertakenFront(answers, i);
      }
    }
    hide Overtaken;
  }

  // Each Root with a fresh bookmark has it stored, and everything else stands.
  ghost predicate Renewed(p: Persisted, q: Persisted, library: Key, order: seq<Key>, answers: seq<Answer>)
    requires |order| == |answers|
  {
    && q.libraries == p.libraries && q.provisional == p.provisional
    && (forall i: nat | i < |order| ::
          StoredRoot(q, library, order[i]) == if Renews(answers[i]) then answers[i].refreshed else StoredRoot(p, library, order[i]))
    && (forall l, r | l != library || r !in order :: StoredRoot(q, l, r) == StoredRoot(p, l, r))
  }

  lemma RenewedNone(p: Persisted, library: Key)
    ensures Renewed(p, p, library, [], [])
  {
  }

  lemma RenewedNext(p: Persisted, q: Persisted, library: Key, order: seq<Key>, answers: seq<Answer>, i: nat)
    requires |order| == |answers| && i < |order| && order[i] !in order[..i]
    requires Renewed(p, q, library, order[..i], answers[..i])
    ensures var a := answers[i];
      Renewed(p, if Renews(a) then WithRoot(q, library, order[i], a.refreshed.value) else q, library, order[..i + 1], answers[..i + 1])
  {
    var a := answers[i];
    if Renews(a) { WithRootMeans(q, library, order[i], a.refreshed.value); }
    assert order[..i + 1] == order[..i] + [order[i]] && answers[..i + 1] == answers[..i] + [a];
    hide StoredRoot, WithRoot, Renews;
  }

  // So a quarantined store can go on accessing a Root: the first Root's renewed
  // bookmark cannot be written, the second opens all the same.
  lemma PassLeaks(u: Url, v: Url, d: Data)
    ensures var stale, fine := Answer(Some(u), true, Some(d), false, true), Answer(Some(v), false, None, true, true);
      PassOver([1, 2], [stale, fine], Pass(map[], false)) == Pass(map[2 := v], true)
  {
    var stale, fine := Answer(Some(u), true, Some(d), false, true), Answer(Some(v), false, None, true, true);
    assert [1, 2][..1] == [1] && [stale, fine][..1] == [stale] && [1][..0] == [] && [stale][..0] == [];
    assert PassOver([1], [stale], Pass(map[], false)) == Pass(map[], true);
  }

  function Replaced(p: Persisted, library: Key): Option<Data> {
    if library in p.libraries then Some(p.libraries[library]) else None
  }

  function RolledBack(libraries: map<Key, Data>, grant: LibraryGrant): map<Key, Data> {
    if grant.previous.Some? then libraries[grant.library := grant.previous.value] else libraries - {grant.library}
  }

  // Rolling a library grant back, whatever else the store has done since,
  // restores what was stored for that library when the grant was prepared and
  // leaves everything else as it is.
  lemma RollbackUndoes(p: Persisted, grant: LibraryGrant, q: Persisted)
    requires grant.previous == Replaced(p, grant.library)
    ensures var r := q.(libraries := RolledBack(q.libraries, grant));
      && Replaced(r, grant.library) == Replaced(p, grant.library)
      && (forall k | k != grant.library :: Replaced(r, k) == Replaced(q, k))
      && (q.libraries - {grant.library} == p.libraries - {grant.library} ==> r.libraries == p.libraries)
  {
    var r := RolledBack(q.libraries, grant);
    if q.libraries - {grant.library} == p.libraries - {grant.library} {
      forall k | k != grant.library ensures (k in q.libraries <==> k in p.libraries) && (k in q.libraries ==> q.libraries[k] == p.libraries[k]) {
        assert k in q.libraries - {grant.library} <==> k in p.libraries - {grant.library};
        assert k in q.libraries ==> (q.libraries - {grant.library})[k] == q.libraries[k];
        assert k in p.libraries ==> (p.libraries - {grant.library})[k] == p.libraries[k];
      }
      assert r == p.libraries;
    }
  }

  lemma OnlyOneChanged(libraries: map<Key, Data>, library: Key, data: Data)
    ensures libraries[library := data] - {library} == libraries - {library}
  {
  }

  class GrantStore {
    // The property list on disk, and the accesses started and not stopped.
    var stored: Persisted
    var held: multiset<Url>
    var state: Persisted
    var quarantined: bool
    var libraryUrl: Option<Url>
    var rootUrls: map<Key, Url>
    var provisionalUrls: map<Key, Url>
    var libraryId: Option<Key>
    var tokens: set<Key>

    ghost function Active(): multiset<Url>
      reads this
    {
      Tables(libraryUrl, rootUrls, provisionalUrls)
    }

    // Accesses are balanced, and memory and disk agree unless quarantined.
    ghost predicate Valid()
      reads this
    {
      && held == Active()
      && (!quarantined ==> stored == state)
      && (libraryId.None? ==> libraryUrl.None?)
      && provisionalUrls.Keys <= tokens
    }

    // Restore what was written, unless it cannot be read; provisional grants do
    // not survive.
    constructor (file: Option<Persisted>, exists_: bool, written: bool)
      ensures Valid()
      ensures quarantined <==> (file.None? && exists_) || (file.Some? && file.value.provisional != map[] && !written)
      ensures state == (match file case Some(p) => p.(provisional := map[]) case None => Persisted(map[], map[], map[]))
      ensures held == multiset{} && libraryId.None? && libraryUrl.None? && rootUrls == map[] && provisionalUrls == map[]
    {
      held, libraryUrl, rootUrls, provisionalUrls, libraryId, tokens := multiset{}, None, map[], map[], None, {};
      hide Tables;
      var empty := Persisted(map[], map[], map[]);
      if file.Some? {
        state, stored, quarantined := file.value, file.value, false;
      } else {
        state, stored, quarantined := empty, empty, exists_;
      }
      new;
      NoTables();
      if !quarantined && state.provisional != map[] {
        Revert(state.(provisional := map[]), written);
      }
    }

    // An atomic write of the whole state; a failed one leaves the file as it was.
    method Persist(written: bool) returns (ok: bool)
      modifies this`stored
      ensures ok == (!quarantined && written)
      ensures stored == if ok then state else old(stored)
    {
      ok := !quarantined && written;
      if ok { stored := state; }
    }

    method Stop(url: Url)
      requires url in held
      modifies this`held
      ensures old(held) == held + multiset{url}
    {
      held := held - multiset{url};
    }

    method StopAll(urls: map<Key, Url>, ghost others: multiset<Url>)
      requires held == Urls(urls) + others
      modifies this`held
      ensures held == others
    {
      hide Urls;
      var rest := urls;
      NoUrls();
      while rest != map[]
        invariant held == Urls(rest) + others
        decreases rest.Keys
      {
        var k :| k in rest;
        UrlsWithout(rest, k);
        ghost var left := Urls(rest - {k}) + others;
        assert held == left + multiset{rest[k]};
        Stop(rest[k]);
        Cancel(held, left, rest[k]);
        rest := rest - {k};
      }
    }

    method DeactivateAll()
      requires held == Active()
      modifies this`held, this`libraryUrl, this`rootUrls, this`provisionalUrls, this`libraryId
      ensures held == multiset{} == Active() && libraryId.None? && libraryUrl.None? && rootUrls == map[] && provisionalUrls == map[]
    {
      hide Tables;
      DeactivateOthers(multiset{});
      NoTables();
    }

    method Quarantine()
      requires held == Active()
      modifies this`quarantined, this`held, this`libraryUrl, this`rootUrls, this`provisionalUrls, this`libraryId
      ensures quarantined && held == multiset{} == Active() && libraryId.None? && libraryUrl.None?
      ensures rootUrls == map[] && provisionalUrls == map[]
    {
      hide Tables;
      quarantined := true;
      DeactivateAll();
    }

    // Restore the state, on disk too, or give up on the disk.
    method Revert(previous: Persisted, written: bool)
      requires held == Active() && (libraryId.None? ==> libraryUrl.None?) && provisionalUrls.Keys <= tokens
      modifies this`state, this`stored, this`quarantined, this`held, this`libraryUrl, this`rootUrls, this`provisionalUrls, this`libraryId
      ensures Valid() && state == previous
      ensures quarantined == (old(quarantined) || !written)
      ensures !quarantined ==> stored == previous && held == old(held) && Active() == old(Active()) && libraryId == old(libraryId)
      ensures !quarantined ==> libraryUrl == old(libraryUrl) && rootUrls == old(rootUrls) && provisionalUrls == old(provisionalUrls)
      ensures quarantined ==> held == multiset{} && libraryId.None? && libraryUrl.None? && rootUrls == map[] && provisionalUrls == map[]
    {
      hide Tables;
      state := previous;
      var ok := Persist(written);
      if !ok { Quarantine(); }
    }

    // Everything an operation may change except the tables stays balanced.
    method Activate(data: Data, slot: Slot, a: Answer) returns (url: Option<Url>)
      requires Valid()
      modifies this`state, this`stored, this`quarantined, this`held, this`libraryUrl, this`rootUrls, this`provisionalUrls, this`libraryId
      ensures url.Some? <==> a.resolved.Some? && a.started && (a.stale ==> a.refreshed.Some? && a.written && !old(quarantined))
      ensures url.Some? ==> url == a.resolved
      ensures url.Some? <==> Works(a, old(quarantined))
      ensures state == if Renews(a) then Refreshed(old(state), slot, a.refreshed.value) else old(state)
      ensures quarantined == (old(quarantined) || Breaks(a, old(quarantined)))
      ensures !quarantined ==> stored == state
      ensures Breaks(a, old(quarantined)) ==>
        rootUrls == map[] && provisionalUrls == map[] && libraryId.None? && libraryUrl.None? && held == multiset{}
      ensures !Breaks(a, old(quarantined)) ==>
        && rootUrls == old(rootUrls) && provisionalUrls == old(provisionalUrls)
        && libraryUrl == old(libraryUrl) && libraryId == old(libraryId)
      ensures held == Active() + if url.Some? then multiset{url.value} else multiset{}
    {
      hide Tables;
      if a.resolved.None? {
        return None;
      }
      if a.stale {
        if a.refreshed.None? {
          return None;
        }
        state := Refreshed(state, slot, a.refreshed.value);
        var ok := Persist(a.written);
        if !ok {
          Quarantine();
          return None;
        }
      }
      if !a.started {
        return None;
      }
      held := held + multiset{a.resolved.value};
      return a.resolved;
    }

    // Make a library's access the only one.
    method SwitchTo(library: Key, url: Url)
      requires held == Active() + multiset{url} && (!quarantined ==> stored == state)
      modifies this`held, this`libraryUrl, this`rootUrls, this`provisionalUrls, this`libraryId
      ensures Valid() && libraryId == Some(library) && libraryUrl == Some(url) && held == multiset{url}
      ensures rootUrls == map[] && provisionalUrls == map[]
    {
      hide Tables;
      DeactivateOthers(multiset{url});
      libraryId, libraryUrl := Some(library), Some(url);
      TablesLibrary(url, map[], map[]);
      NoTables();
    }

    // Stop everything in the tables; another access may be under way.
    method DeactivateOthers(ghost kept: multiset<Url>)
      requires held == Active() + kept
      modifies this`held, this`libraryUrl, this`rootUrls, this`provisionalUrls, this`libraryId
      ensures held == kept && libraryId.None? && libraryUrl.None? && rootUrls == map[] && provisionalUrls == map[]
    {
      hide Urls, One;
      ghost var library := One(libraryUrl) + kept;
      Regroup(One(libraryUrl), Urls(rootUrls), Urls(provisionalUrls), kept);
      StopAll(provisionalUrls, Urls(rootUrls) + library);
      StopAll(rootUrls, library);
      StopLibrary(kept);
      provisionalUrls, rootUrls := map[], map[];
      libraryUrl, libraryId := None, None;
    }

    method StopLibrary(ghost kept: multiset<Url>)
      requires held == One(libraryUrl) + kept
      modifies this`held
      ensures held == kept
    {
      if libraryUrl.Some? {
        assert held == kept + multiset{libraryUrl.value};
        Stop(libraryUrl.value);
        Cancel(held, kept, libraryUrl.value);
      }
    }

    // A library grant remembers the bookmark that it would replace.
    method PrepareLibrary(library: Key, bookmark: Option<Data>) returns (grant: Option<LibraryGrant>)
      ensures grant == if quarantined || bookmark.None? then None
                       else Some(LibraryGrant(library, bookmark.value, Replaced(state, library)))
    {
      if quarantined || bookmark.None? {
        return None;
      }
      return Some(LibraryGrant(library, bookmark.value, if library in state.libraries then Some(state.libraries[library]) else None));
    }

    // A library grant is stored and activated, or the stored grants are as before
    // (or given up).
    method CommitLibrary(grant: LibraryGrant, written: bool, a: Answer, reverted: bool) returns (ok: bool)
      requires Valid()
      modifies this
      ensures Valid() && (old(quarantined) ==> quarantined)
      ensures ok == (!old(quarantined) && written && Works(a, false))
      ensures ok ==>
        && libraryId == Some(grant.library) && held == multiset{a.resolved.value} && !quarantined
        && libraryUrl == a.resolved && rootUrls == map[] && provisionalUrls == map[]
        && state == old(state).(libraries := old(state).libraries[grant.library := if Renews(a) then a.refreshed.value else grant.data])
      ensures !ok ==> state == old(state)
      ensures !ok && !quarantined ==> stored == old(stored) && held == old(held) && libraryId == old(libraryId)
    {
      hide Tables, Urls, One;
      var previous := state;
      state := state.(libraries := state.libraries[grant.library := grant.data]);
      ok := Persist(written);
      if ok {
        var url := Activate(grant.data, LibrarySlot(grant.library), a);
        if url.Some? {
          SwitchTo(grant.library, url.value);
          return true;
        }
      }
      Revert(previous, reverted);
      return false;
    }

    method RollbackLibrary(grant: LibraryGrant, written: bool) returns (ok: bool)
      requires Valid()
      modifies this
      ensures Valid() && (old(quarantined) ==> quarantined)
      ensures ok == (!old(quarantined) && written) && (!ok ==> quarantined)
      ensures state == old(state).(libraries := RolledBack(old(state).libraries, grant))
      ensures Replaced(state, grant.library) == grant.previous
      ensures !ok || old(libraryId) == Some(grant.library) ==>
        held == multiset{} && libraryId.None? && libraryUrl.None? && rootUrls == map[] && provisionalUrls == map[]
      ensures ok && old(libraryId) != Some(grant.library) ==>
        unchanged(`held, `libraryId, `libraryUrl, `rootUrls, `provisionalUrls)
    {
      hide Tables;
      if grant.previous.Some? {
        state := state.(libraries := state.libraries[grant.library := grant.previous.value]);
      } else {
        state := state.(libraries := state.libraries - {grant.library});
      }
      ok := Persist(written);
      if !ok { Quarantine(); }
      if libraryId == Some(grant.library) {
        DeactivateAll();
      }
    }

    // A library whose launch fails after its grant was committed: the stored
    // grants end as they were, or the store is quarantined.
    method AbandonOpening(library: Key, bookmark: Option<Data>, written: bool, a: Answer, reverted: bool, restored: bool)
      requires Valid()
      modifies this
      ensures Valid() && state == old(state)
      ensures !quarantined ==> stored == old(state)
    {
      hide Tables;
      var grant := PrepareLibrary(library, bookmark);
      if grant.None? { return; }
      var ok := CommitLibrary(grant.value, written, a, reverted);
      if ok {
        RollbackUndoes(old(state), grant.value, state);
        OnlyOneChanged(old(state).libraries, library, if Renews(a) then a.refreshed.value else grant.value.data);
        var _ := RollbackLibrary(grant.value, restored);
      }
    }

    method ActivateLibrary(library: Key, a: Answer) returns (ok: bool)
      requires Valid()
      modifies this
      ensures Valid() && (old(quarantined) ==> quarantined)
      ensures ok == (!old(quarantined) && library in old(state).libraries && Works(a, false))
      ensures ok ==>
        && libraryId == Some(library) && libraryUrl == a.resolved && rootUrls == map[] && provisionalUrls == map[]
        && held == multiset{a.resolved.value} && !quarantined
      ensures var tried := !old(quarantined) && library in old(state).libraries;
        && state == (if tried && Renews(a)
                     then old(state).(libraries := old(state).libraries[library := a.refreshed.value]) else old(state))
        && (quarantined <==> old(quarantined) || (tried && Renews(a) && !a.written))
      ensures !ok && quarantined == old(quarantined) ==> unchanged(`held, `libraryId, `libraryUrl, `rootUrls, `provisionalUrls)
    {
      hide Tables;
      if quarantined || library !in state.libraries {
        return false;
      }
      var url := Activate(state.libraries[library], LibrarySlot(library), a);
      if url.None? {
        return false;
      }
      SwitchTo(library, url.value);
      return true;
    }

    // A Root grant starts as a provisional record under a token never used before.
    method PrepareRoot(library: Key, token: Key, bookmark: Option<Data>, written: bool, a: Answer, reverted: bool)
      returns (grant: Option<RootGrant>)
      requires Valid() && token !in tokens && token !in state.provisional
      modifies this
      ensures Valid() && (old(quarantined) ==> quarantined)
      ensures grant.Some? <==> !old(quarantined) && bookmark.Some? && written && Works(a, false)
      ensures grant.Some? ==>
        && grant.value == RootGrant(token, library, if Renews(a) then a.refreshed.value else bookmark.value)
        && state == old(state).(provisional := old(state).provisional[token := Provisional(library, grant.value.data)])
        && provisionalUrls == old(provisionalUrls)[token := a.resolved.value]
        && unchanged(`libraryId, `libraryUrl, `rootUrls)
      ensures grant.None? ==> quarantined || (state == old(state) && held == old(held))
    {
      hide Tables;
      if quarantined || bookmark.None? {
        return None;
      }
      var before := state;
      tokens := tokens + {token};
      state := state.(provisional := state.provisional[token := Provisional(library, bookmark.value)]);
      var ok := Persist(written);
      if !ok {
        state := state.(provisional := state.provisional - {token});
        assert state.provisional == before.provisional;
        return None;
      }
      var url := Activate(bookmark.value, ProvisionalSlot(token, library), a);
      if url.None? {
        assert state.provisional - {token} == before.provisional;
        Revert(state.(provisional := state.provisional - {token}), reverted);
        return None;
      }
      TablesProvisional(libraryUrl, rootUrls, provisionalUrls, token, url.value);
      provisionalUrls := provisionalUrls[token := url.value];
      return Some(RootGrant(token, library, if Renews(a) then a.refreshed.value else bookmark.value));
    }

    // A provisional Root becomes a Root of the active library, keeping its access.
    method CommitRoot(grant: RootGrant, root: Key, written: bool, reverted: bool) returns (ok: bool)
      requires Valid()
      modifies this
      ensures Valid() && (old(quarantined) ==> quarantined)
      ensures ok <==>
        && old(libraryId) == Some(grant.library)
        && grant.token in old(state).provisional && old(state).provisional[grant.token] == Provisional(grant.library, grant.data)
        && !old(quarantined) && written && grant.token in old(provisionalUrls)
      ensures ok ==>
        && state.provisional == old(state).provisional - {grant.token} && state.libraries == old(state).libraries
        && StoredRoot(state, grant.library, root) == Some(grant.data) && OnlyRoot(old(state), state, grant.library, root)
        && unchanged(`libraryId, `libraryUrl, `quarantined)
        && rootUrls == old(rootUrls)[root := old(provisionalUrls)[grant.token]]
        && provisionalUrls == old(provisionalUrls) - {grant.token}
      ensures !ok ==> state == old(state)
      ensures !ok && !quarantined ==> unchanged(`held, `stored, `libraryId, `libraryUrl, `rootUrls, `provisionalUrls)
    {
      hide Tables, OnlyRoot, StoredRoot, WithRoot, Urls;
      if libraryId != Some(grant.library) || grant.token !in state.provisional
         || state.provisional[grant.token] != Provisional(grant.library, grant.data)
      {
        return false;
      }
      var previous := state;
      CommittedMeans(state, grant, root);
      state := WithRoot(state.(provisional := state.provisional - {grant.token}), grant.library, root, grant.data);
      ok := Persist(written);
      if !ok || grant.token !in provisionalUrls {
        Revert(previous, reverted);
        return false;
      }
      var url := provisionalUrls[grant.token];
      TablesProvisionalOut(libraryUrl, rootUrls, provisionalUrls, grant.token);
      provisionalUrls := provisionalUrls - {grant.token};
      if root in rootUrls {
        RemoveRootUrl(root, multiset{url});
      }
      TablesRoot(libraryUrl, rootUrls, provisionalUrls, root, url);
      rootUrls := rootUrls[root := url];
      return true;
    }

    method RemoveRootUrl(root: Key, ghost others: multiset<Url>)
      requires held == Active() + others && root in rootUrls
      modifies this`held, this`rootUrls
      ensures held == Active() + others && rootUrls == old(rootUrls) - {root}
    {
      hide Tables;
      var url := rootUrls[root];
      TablesRootOut(libraryUrl, rootUrls, provisionalUrls, root);
      rootUrls := rootUrls - {root};
      ghost var rest := Active() + others;
      assert held == rest + multiset{url};
      Stop(url);
      Cancel(held, rest, url);
    }

    method DiscardRoot(grant: RootGrant, written: bool) returns (ok: bool)
      requires Valid()
      modifies this
      ensures Valid() && (old(quarantined) ==> quarantined)
      ensures state == old(state).(provisional := old(state).provisional - {grant.token})
      ensures ok == (grant.token !in old(state).provisional || (!old(quarantined) && written)) && (!ok ==> quarantined)
      ensures ok ==> provisionalUrls == old(provisionalUrls) - {grant.token}
      ensures ok ==> unchanged(`quarantined, `libraryId, `libraryUrl, `rootUrls)
      ensures !ok ==> held == multiset{} && libraryId.None? && libraryUrl.None? && rootUrls == map[] && provisionalUrls == map[]
    {
      hide Tables;
      if grant.token in provisionalUrls {
        var url := provisionalUrls[grant.token];
        TablesProvisionalOut(libraryUrl, rootUrls, provisionalUrls, grant.token);
        provisionalUrls := provisionalUrls - {grant.token};
        ghost var rest := Active();
        Stop(url);
        Cancel(held, rest, url);
      }
      if grant.token in state.provisional {
        state := state.(provisional := state.provisional - {grant.token});
        ok := Persist(written);
        if !ok { Quarantine(); }
        return;
      }
      return true;
    }

    method RemoveRoot(library: Key, root: Key, written: bool) returns (ok: bool)
      requires Valid()
      modifies this
      ensures Valid() && (old(quarantined) ==> quarantined)
      ensures ok == (!old(quarantined) && written)
      ensures ok ==>
        && StoredRoot(state, library, root) == None && OnlyRoot(old(state), state, library, root)
        && state.libraries == old(state).libraries && state.provisional == old(state).provisional
        && rootUrls == (if libraryId == Some(library) then old(rootUrls) - {root} else old(rootUrls))
        && unchanged(`quarantined, `libraryId, `libraryUrl, `provisionalUrls)
      ensures !ok ==> quarantined && state == old(state)
      ensures !ok ==> held == multiset{} && libraryId.None? && libraryUrl.None? && rootUrls == map[] && provisionalUrls == map[]
    {
      hide Tables;
      var previous := state;
      if library in state.roots {
        state := state.(roots := state.roots[library := state.roots[library] - {root}]);
      }
      ok := Persist(written);
      if !ok {
        state := previous;
        Quarantine();
        return;
      }
      if libraryId == Some(library) && root in rootUrls {
        RemoveRootUrl(root, multiset{});
      }
    }

    method ClearRoots()
      requires Valid()
      modifies this`held, this`rootUrls
      ensures Valid() && rootUrls == map[]
    {
      hide Urls, One;
      NoUrls();
      Regroup(One(libraryUrl), Urls(rootUrls), Urls(provisionalUrls), multiset{});
      StopAll(rootUrls, One(libraryUrl) + Urls(provisionalUrls));
      rootUrls := map[];
    }

    // Open every Root of the active library, in some order; a Root that cannot be
    // opened is passed over.
    method ActivateRoots(library: Key, order: seq<Key>, answers: seq<Answer>)
      requires Valid() && |order| == |answers|
      requires forall i, j | 0 <= i < j < |order| :: order[i] != order[j]
      requires forall k :: k in order <==> k in RootsOf(state, library)
      modifies this
      ensures Valid() && (old(quarantined) ==> quarantined)
      ensures old(libraryId) == Some(library) ==>
        Pass(rootUrls, quarantined) == PassOver(order, answers, Pass(map[], old(quarantined)))
      ensures old(libraryId) == Some(library) ==>
        && Renewed(old(state), state, library, order, answers)
        && (!quarantined ==> unchanged(`libraryId, `libraryUrl, `provisionalUrls))
      ensures old(libraryId) != Some(library) ==>
        unchanged(`state, `stored, `quarantined, `held, `libraryId, `libraryUrl, `rootUrls, `provisionalUrls)
    {
      hide Valid, PassOver, Renewed, RootsOf;
      if libraryId != Some(library) {
        return;
      }
      ClearRoots();
      OpenRoots(library, RootsOf(state, library), order, answers);
    }

    method OpenRoots(library: Key, bookmarks: map<Key, Data>, order: seq<Key>, answers: seq<Answer>)
      requires Valid() && |order| == |answers| && rootUrls == map[]
      requires forall i, j | 0 <= i < j < |order| :: order[i] != order[j]
      requires forall k <- order :: k in bookmarks
      modifies this`state, this`stored, this`quarantined, this`held, this`libraryUrl, this`rootUrls, this`provisionalUrls, this`libraryId
      ensures Valid() && (old(quarantined) ==> quarantined)
      ensures Pass(rootUrls, quarantined) == PassOver(order, answers, Pass(map[], old(quarantined)))
      ensures Renewed(old(state), state, library, order, answers)
      ensures !quarantined ==> unchanged(`libraryId, `libraryUrl, `provisionalUrls)
    {
      hide Valid, PassOver, Tables, WithRoot, Renewed, Renews, Breaks, Works;
      ghost var start := Pass(map[], quarantined);
      PassNone(start);
      RenewedNone(state, library);
      for i := 0 to |order|
        invariant Valid() && (start.quarantined ==> quarantined)
        invariant Pass(rootUrls, quarantined) == PassOver(order[..i], answers[..i], start)
        invariant forall k <- rootUrls :: k in order[..i]
        invariant Renewed(old(state), state, library, order[..i], answers[..i])
        invariant !quarantined ==> unchanged(`libraryId, `libraryUrl, `provisionalUrls)
      {
        assert order[i] !in order[..i];
        RenewedNext(old(state), state, library, order, answers, i);
        PassNext(order, answers, start, i);
        assert order[..i + 1] == order[..i] + [order[i]];
        OpenRoot(library, order[i], bookmarks[order[i]], answers[i]);
      }
      assert order[..|order|] == order && answers[..|answers|] == answers;
    }

    method OpenRoot(library: Key, root: Key, bookmark: Data, a: Answer)
      requires Valid() && root !in rootUrls
      modifies this`state, this`stored, this`quarantined, this`held, this`libraryUrl, this`rootUrls, this`provisionalUrls, this`libraryId
      ensures Valid() && (old(quarantined) ==> quarantined)
      ensures Pass(rootUrls, quarantined) == PassStep(old(Pass(rootUrls, quarantined)), root, a)
      ensures forall k <- rootUrls :: k in old(rootUrls) || k == root
      ensures state == if Renews(a) then WithRoot(old(state), library, root, a.refreshed.value) else old(state)
      ensures !quarantined ==> unchanged(`libraryId, `libraryUrl, `provisionalUrls)
    {
      hide Tables;
      var url := Activate(bookmark, RootSlot(library, root), a);
      if url.Some? {
        TablesRoot(libraryUrl, rootUrls, provisionalUrls, root, url.value);
        rootUrls := rootUrls[root := url.value];
      }
    }
  }
}
