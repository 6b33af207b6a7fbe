/**
 The client's page cache over the ordered Asset query: asynchronous requests, at
 most eight pages kept, generations that outdate late replies.
 */
module AssetPager {
  import opened Wrappers
  import opened Sets
  import opened Tables

  const PAGE_SIZE := 100
  const MAX_CACHED_PAGES := 8

  // A request as its reply will find it: what was captured when it was sent.
  datatype Request = Request(offset: nat, replace: bool, generation: nat, expected: Option<nat>)

  datatype Reply =
    | Page(offset: nat, ids: seq<Id>, total: nat, revision: nat)
    | SnapshotChanged
    | Failed
  {
    // The reply fills in this index.
    predicate Fills(i: nat) { Page? && offset <= i < offset + |ids| }
  }

  datatype State = State(
    items: map<nat, Id>,
    total: nat,
    inFlight: map<nat, nat>,
    access: map<nat, nat>,
    loaded: set<nat>,
    generation: nat,
    sequence: nat,
    snapshot: Option<nat>,
    sent: map<nat, Request>,
    loading: bool,
    failed: bool)

  function PageOf(index: nat): nat { index / PAGE_SIZE * PAGE_SIZE }

  /** The least recently used pages go. */

  function MoreRecent(access: map<nat, nat>, offset: nat): set<nat>
    requires offset in access
  {
    set k | k in access && access[k] > access[offset]
  }

  function Retained(access: map<nat, nat>): set<nat> {
    set k | k in access && |MoreRecent(access, k)| < MAX_CACHED_PAGES
  }

  /** The steps. */

  function Touch(s: State, offset: nat): State {
    s.(access := s.access[offset := s.sequence + 1], sequence := s.sequence + 1)
  }

  function Send(s: State, offset: nat, replace: bool): State {
    s.(inFlight := s.inFlight[offset := s.sequence],
       sent := s.sent[s.sequence := Request(offset, replace, s.generation, if offset == 0 then None else s.snapshot)])
  }

  // Ask for a page, unless it is loaded or already on its way; a later page
  // needs the snapshot that the first one brings, so that is asked for instead
  // (and the page itself again once it came).
  function RequestPage(s: State, offset: nat, replace: bool): State {
    var touched := Touch(s, offset);
    if !replace && offset in s.loaded then touched
    else if offset in s.inFlight then touched
    else if offset > 0 && s.snapshot.None? then
      if 0 in s.inFlight then Touch(touched, 0) else Send(Touch(touched, 0), 0, true)
    else Send(touched, offset, replace)
  }

  function NextGeneration(s: State): State {
    s.(generation := s.generation + 1, inFlight := map[], access := map[], loaded := {}, snapshot := None, loading := true)
  }

  // Forget everything cached; the microtask that follows asks for the first page.
  function Restart(s: State): State {
    RequestPage(NextGeneration(s).(items := map[], total := 0, failed := false), 0, true)
  }

  // Refreshing keeps showing the old items until the first page arrives.
  function Refresh(s: State): State {
    RequestPage(NextGeneration(s), 0, true)
  }

  function Settle(s: State, id: nat, request: Request): State {
    s.(inFlight := if request.offset in s.inFlight && s.inFlight[request.offset] == id then s.inFlight - {request.offset} else s.inFlight,
       loading := if request.generation == s.generation then false else s.loading,
       sent := s.sent - {id})
  }

  function Merged(items: map<nat, Id>, reply: Reply): map<nat, Id>
    requires reply.Page?
  {
    items + map i {:trigger reply.Fills(i)} | reply.offset <= i < reply.offset + |reply.ids| && reply.Fills(i) :: reply.ids[i - reply.offset]
  }

  function Accept(s: State, request: Request, reply: Reply): State
    requires reply.Page?
  {
    var retained := Retained(s.access);
    var next := Merged(if request.replace then map[] else s.items, reply);
    s.(snapshot := if request.offset == 0 then Some(reply.revision) else s.snapshot,
       total := reply.total,
       items := map i | i in next && PageOf(i) in retained :: next[i],
       access := map k | k in s.access && k in retained :: s.access[k],
       loaded := ((if request.replace then {} else s.loaded) + {request.offset}) * retained,
       failed := false)
  }

  // The answer to a request that was sent; an answer from an older generation,
  // or one that says the snapshot moved, is not merged.
  function Answer(s: State, id: nat, reply: Reply): State
    requires id in s.sent
  {
    var request := s.sent[id];
    if request.generation != s.generation then Settle(s, id, request)
    else if reply.SnapshotChanged? || (reply.Page? && request.offset != 0 && request.expected != Some(reply.revision))
    then Settle(Restart(s), id, request)
    else if reply.Page? then Settle(Accept(s, request, reply), id, request)
    else Settle(s.(failed := true), id, request)
  }

  function Start(): State {
    RequestPage(State(map[], 0, map[], map[], {}, 0, 0, None, map[], true, false), 0, true)
  }

  /** What every run keeps. */

  ghost predicate Current(s: State, id: nat) { id in s.sent && s.sent[id].generation == s.generation }

  ghost predicate Tracked(s: State) {
    && (forall id <- s.sent :: id <= s.sequence && s.sent[id].generation <= s.generation && s.sent[id].offset % PAGE_SIZE == 0)
    && (forall id | Current(s, id) :: s.sent[id].offset in s.inFlight && s.inFlight[s.sent[id].offset] == id)
    && (forall k <- s.inFlight :: Current(s, s.inFlight[k]) && s.sent[s.inFlight[k]].offset == k)
  }

  // A later page was asked for at a snapshot; a replacing request is for the
  // first page and there is no snapshot until it is answered.
  ghost predicate Expectations(s: State) {
    forall id | Current(s, id) ::
      && (s.sent[id].offset > 0 ==> s.snapshot.Some? && s.sent[id].expected.Some?)
      && (s.sent[id].replace ==> s.sent[id].offset == 0 && s.snapshot.None?)
  }

  ghost predicate Ordered(access: map<nat, nat>, sequence: nat) {
    && (forall k <- access :: access[k] <= sequence)
    && (forall a, b | a in access && b in access && access[a] == access[b] :: a == b)
  }

  function PagesOf(items: map<nat, Id>): set<nat> {
    set i | i in items :: PageOf(i)
  }

  ghost predicate Bounded(s: State) {
    |PagesOf(s.items)| <= MAX_CACHED_PAGES && |s.loaded| <= MAX_CACHED_PAGES
  }

  ghost predicate Valid(s: State) {
    Tracked(s) && Expectations(s) && Ordered(s.access, s.sequence) && Bounded(s)
  }

  // Core's ordered result at each revision.
  type Results = nat -> seq<Id>

  ghost predicate AgreesAt(items: map<nat, Id>, ordered: seq<Id>) {
    forall i <- items :: i < |ordered| && items[i] == ordered[i]
  }

  // Whenever a snapshot is held, the total and the cached indices are those of
  // the ordered result at its revision.
  ghost predicate Agrees(s: State, results: Results) {
    s.snapshot.Some? ==> s.total == |results(s.snapshot.value)| && AgreesAt(s.items, results(s.snapshot.value))
  }

  // What Core answers to a request: a piece of the ordered result at the
  // revision it names, not empty before its end, and its total.
  ghost predicate Honest(request: Request, reply: Reply, results: Results) {
    reply.Page? ==>
      && reply.offset == request.offset && reply.total == |results(reply.revision)|
      && |reply.ids| <= PAGE_SIZE && (reply.offset < reply.total ==> reply.ids != [])
      && (forall i: nat | reply.Fills(i) :: i < |results(reply.revision)| && reply.ids[i - reply.offset] == results(reply.revision)[i])
  }

  // A later page in flight was asked for at the held snapshot, or lies beyond the
  // end of both results.
  ghost predicate Pending(s: State, results: Results) {
    forall id | Current(s, id) && s.sent[id].offset > 0 ::
      s.sent[id].expected == s.snapshot
      || (s.sent[id].expected.Some? && s.sent[id].offset >= s.total && |results(s.sent[id].expected.value)| == s.total)
  }

  ghost predicate Consonant(s: State, results: Results) { Agrees(s, results) && Pending(s, results) }

  // What an unreplaced first page leaves of the old items.
  function Leftover(s: State, reply: Reply): set<nat>
    requires reply.Page?
  {
    set i | i in s.items && !reply.Fills(i) && PageOf(i) in Retained(s.access)
  }

  // No later page that is still in flight can bring an old item, or an old total.
  ghost predicate Alone(s: State, reply: Reply)
    requires reply.Page?
  {
    forall k | Current(s, k) && s.sent[k].offset > 0 :: reply.total == s.total && s.sent[k].offset >= s.total
  }

  // A first page that does not replace the items is safe to merge if it brings
  // the held revision, or if nothing old is left and nothing old will come.
  ghost predicate Safe(s: State, id: nat, reply: Reply)
    requires id in s.sent
  {
    Current(s, id) && reply.Page? && s.sent[id].offset == 0 ==>
      s.sent[id].replace || s.snapshot == Some(reply.revision) || (Leftover(s, reply) == {} && Alone(s, reply))
  }

  // The eight most recently used pages are retained, or all of them.
  lemma RetainedBound(access: map<nat, nat>, sequence: nat)
    requires Ordered(access, sequence)
    ensures |Retained(access)| == Min(8, |access.Keys|)
  {
    var age := (k: nat) => if k in access then access[k] else 0;
    LatestCount(access.Keys, age, MAX_CACHED_PAGES);
    forall k <- access ensures Later(access.Keys, age, k) == MoreRecent(access, k) {
    }
    assert Retained(access) == Latest(access.Keys, age, MAX_CACHED_PAGES);
  }

  lemma AcceptBounded(s: State, request: Request, reply: Reply)
    requires Ordered(s.access, s.sequence) && reply.Page?
    ensures Bounded(Accept(s, request, reply)) && Ordered(Accept(s, request, reply).access, s.sequence)
  {
    var r := Accept(s, request, reply);
    RetainedBound(s.access, s.sequence);
    SubsetSize(PagesOf(r.items), Retained(s.access));
    SubsetSize(r.loaded, Retained(s.access));
  }

  // Eight pages hold at most eight hundred items.
  lemma {:induction false} PagesHold(keys: set<nat>, pages: set<nat>)
    requires forall i <- keys :: PageOf(i) in pages
    ensures |keys| <= PAGE_SIZE * |pages|
    decreases pages
  {
    if pages == {} {
      assert keys == {};
    } else {
      var p :| p in pages;
      var here := set i | i in keys && PageOf(i) == p;
      var window := Span(p, PAGE_SIZE);
      SubsetSize(here, window);
      PagesHold(keys - here, pages - {p});
      assert keys == here + (keys - here);
    }
  }

  // n consecutive indices.
  function Span(p: nat, n: nat): (r: set<nat>)
    ensures |r| == n && forall i :: i in r <==> p <= i < p + n
  {
    if n == 0 then {} else Span(p, n - 1) + {p + n - 1}
  }

  lemma AtMostEightHundred(s: State)
    requires Bounded(s)
    ensures |s.items| <= 800
  {
    PagesHold(s.items.Keys, PagesOf(s.items));
    assert |s.items.Keys| == |s.items|;
  }

  /** Each step keeps the invariant, whatever Core answers. */

  lemma TouchKeeps(s: State, offset: nat)
    requires Valid(s)
    ensures Valid(Touch(s, offset)) && Touch(s, offset).sequence !in Touch(s, offset).sent
  {
  }

  lemma SendKeeps(s: State, offset: nat, replace: bool)
    requires Valid(s) && s.sequence !in s.sent && offset !in s.inFlight && offset % PAGE_SIZE == 0
    requires (offset > 0 ==> s.snapshot.Some?) && (replace ==> offset == 0 && s.snapshot.None?)
    ensures Valid(Send(s, offset, replace))
  {
  }

  lemma RequestKeeps(s: State, offset: nat, replace: bool)
    requires Valid(s) && (replace ==> offset == 0 && s.snapshot.None?) && offset % PAGE_SIZE == 0
    ensures Valid(RequestPage(s, offset, replace))
    ensures RequestPage(s, offset, replace).items == s.items && RequestPage(s, offset, replace).snapshot == s.snapshot
    ensures RequestPage(s, offset, replace).generation == s.generation && RequestPage(s, offset, replace).total == s.total
  {
    hide Valid;
    var touched := Touch(s, offset);
    TouchKeeps(s, offset);
    if (replace || offset !in s.loaded) && offset !in s.inFlight {
      if offset > 0 && s.snapshot.None? {
        TouchKeeps(touched, 0);
        if 0 !in s.inFlight { SendKeeps(Touch(touched, 0), 0, true); }
      } else {
        SendKeeps(touched, offset, replace);
      }
    }
  }

  lemma NextGenerationKeeps(s: State)
    requires Valid(s)
    ensures Valid(NextGeneration(s)) && NextGeneration(s).snapshot.None?
  {
  }

  lemma RestartKeeps(s: State)
    requires Valid(s)
    ensures Valid(Restart(s)) && Restart(s).snapshot.None? && Restart(s).generation == s.generation + 1
  {
    var n := NextGeneration(s).(items := map[], total := 0, failed := false);
    NextGenerationKeeps(s);
    assert PagesOf(map[]) == {};
    assert Valid(n);
    RequestKeeps(n, 0, true);
  }

  lemma RefreshKeeps(s: State)
    requires Valid(s)
    ensures Valid(Refresh(s)) && Refresh(s).snapshot.None?
  {
    NextGenerationKeeps(s);
    RequestKeeps(NextGeneration(s), 0, true);
  }

  lemma SettleKeeps(s: State, id: nat, request: Request)
    requires Valid(s) && id in s.sent && s.sent[id] == request
    ensures Valid(Settle(s, id, request))
  {
  }

  lemma SettledTracked(s: State, id: nat, reply: Reply)
    requires Tracked(s) && Expectations(s) && Current(s, id) && reply.Page?
    ensures var r := Settle(Accept(s, s.sent[id], reply), id, s.sent[id]);
      Tracked(r) && Expectations(r)
  {
    hide Retained, Merged, Bounded, Ordered;
  }

  lemma AcceptKeeps(s: State, id: nat, reply: Reply)
    requires Valid(s) && Current(s, id) && reply.Page?
    ensures Valid(Settle(Accept(s, s.sent[id], reply), id, s.sent[id]))
  {
    hide Retained, Merged, Tracked, Expectations;
    AcceptBounded(s, s.sent[id], reply);
    SettledTracked(s, id, reply);
  }

  datatype Event =
    | Wants(offset: nat)
    | Refreshes
    | Replies(id: nat, reply: Reply)

  function Next(s: State, e: Event): State {
    match e
    case Wants(offset) => RequestPage(s, PageOf(offset), false)
    case Refreshes => Refresh(s)
    case Replies(id, reply) => if id in s.sent then Answer(s, id, reply) else s
  }

  // The answer says that the snapshot moved, in words or by its revision.
  predicate Outdates(request: Request, reply: Reply) {
    reply.SnapshotChanged? || (reply.Page? && request.offset != 0 && request.expected != Some(reply.revision))
  }

  lemma AnswerValid(s: State, id: nat, reply: Reply)
    requires Valid(s) && id in s.sent
    ensures Valid(Answer(s, id, reply))
  {
    hide Valid, Accept;
    var request := s.sent[id];
    SettleKeeps(s, id, request);
    if request.generation == s.generation {
      if Outdates(request, reply) {
        RestartKeeps(s);
        RestartSent(s, id);
        SettleKeeps(Restart(s), id, request);
      } else if reply.Page? {
        AcceptKeeps(s, id, reply);
      } else {
        FailedKeeps(s);
        SettleKeeps(s.(failed := true), id, request);
      }
    }
  }

  lemma NextValid(s: State, e: Event)
    requires Valid(s)
    ensures Valid(Next(s, e))
  {
    hide Valid, Answer;
    match e
    case Wants(offset) => RequestKeeps(s, PageOf(offset), false);
    case Refreshes => RefreshKeeps(s);
    case Replies(id, reply) => if id in s.sent { AnswerValid(s, id, reply); }
  }

  lemma RestartSent(s: State, id: nat)
    requires Valid(s) && id in s.sent
    ensures id in Restart(s).sent && Restart(s).sent[id] == s.sent[id]
  {
    hide Expectations, Ordered, Bounded;
  }

  lemma FailedKeeps(s: State)
    requires Valid(s)
    ensures Valid(s.(failed := true))
  {
  }

  function After(s: State, events: seq<Event>): State
    decreases |events|
  {
    if events == [] then s else Next(After(s, events[..|events| - 1]), events[|events| - 1])
  }

  // In every run at most eight pages, so at most eight hundred items, are cached.
  lemma {:induction false} RunBounded(events: seq<Event>)
    ensures Valid(After(Start(), events)) && |After(Start(), events).items| <= 800
    decreases |events|
  {
    if events == [] {
      StartValid();
    } else {
      hide Valid, Start, Next;
      RunBounded(events[..|events| - 1]);
      NextValid(After(Start(), events[..|events| - 1]), events[|events| - 1]);
    }
    BoundedThere(After(Start(), events));
  }

  lemma BoundedThere(s: State)
    requires Valid(s)
    ensures |s.items| <= PAGE_SIZE * MAX_CACHED_PAGES
  {
    AtMostEightHundred(s);
  }

  lemma StartValid()
    ensures Valid(Start()) && Start().snapshot.None?
  {
    var s := State(map[], 0, map[], map[], {}, 0, 0, None, map[], true, false);
    assert PagesOf(map[]) == {};
    assert Valid(s);
    RequestKeeps(s, 0, true);
  }

  // An answer from an older generation changes nothing that is shown or cached.
  lemma StaleAnswer(s: State, id: nat, reply: Reply)
    requires Valid(s) && id in s.sent && s.sent[id].generation != s.generation
    ensures Answer(s, id, reply) == s.(sent := s.sent - {id})
  {
  }

  /** Agreement. */

  lemma MergedAgrees(items: map<nat, Id>, reply: Reply, ordered: seq<Id>)
    requires reply.Page? && AgreesAt(items, ordered)
    requires forall i: nat | reply.Fills(i) :: i < |ordered| && reply.ids[i - reply.offset] == ordered[i]
    ensures AgreesAt(Merged(items, reply), ordered)
  {
  }

  // With nothing left over the cache is what the page brought.
  lemma OnlyFilled(s: State, request: Request, reply: Reply)
    requires reply.Page? && (request.replace || Leftover(s, reply) == {})
    ensures forall i <- Accept(s, request, reply).items :: reply.Fills(i) && Accept(s, request, reply).items[i] == reply.ids[i - reply.offset]
  {
    hide Retained;
    forall i | i in s.items && !reply.Fills(i) && !request.replace ensures PageOf(i) !in Retained(s.access) {
      assert i !in Leftover(s, reply);
    }
  }

  // Merging a safe answer keeps the cache in agreement with Core.
  lemma AcceptAgrees(s: State, id: nat, reply: Reply, results: Results)
    requires Valid(s) && Current(s, id) && reply.Page? && Safe(s, id, reply) && !Outdates(s.sent[id], reply)
    requires Consonant(s, results) && Honest(s.sent[id], reply, results)
    ensures Agrees(Accept(s, s.sent[id], reply), results)
  {
    hide Retained, Tracked, Ordered, Bounded;
    var request := s.sent[id];
    var r := Accept(s, request, reply);
    if request.replace || s.snapshot == Some(reply.revision) {
      MergedAgrees(if request.replace then map[] else s.items, reply, results(reply.revision));
    } else if request.offset == 0 {
      OnlyFilled(s, request, reply);
    } else {
      assert request.offset >= s.total == reply.total;
      forall i <- r.items ensures i in s.items && r.items[i] == s.items[i] {
        assert !reply.Fills(i);
      }
    }
  }

  // And no later page in flight can break it.
  lemma AcceptPending(s: State, id: nat, reply: Reply, results: Results)
    requires Valid(s) && Current(s, id) && reply.Page? && Safe(s, id, reply) && !Outdates(s.sent[id], reply)
    requires Consonant(s, results) && Honest(s.sent[id], reply, results)
    ensures Pending(Accept(s, s.sent[id], reply), results)
  {
    hide Retained, Tracked, Ordered, Bounded, AgreesAt, Leftover, Merged;
    var request := s.sent[id];
    var r := Accept(s, request, reply);
    forall k | Current(r, k) && r.sent[k].offset > 0
      ensures r.sent[k].expected == r.snapshot
           || (r.sent[k].expected.Some? && r.sent[k].offset >= r.total && |results(r.sent[k].expected.value)| == r.total)
    {
      assert Current(s, k);
    }
  }

  lemma SettleConsonant(s: State, id: nat, request: Request, results: Results)
    requires Consonant(s, results)
    ensures Consonant(Settle(s, id, request), results)
  {
    var r := Settle(s, id, request);
    assert forall k :: Current(r, k) ==> Current(s, k);
  }

  // Core answers honestly, and first pages are safe to merge.
  ghost predicate Fair(s: State, e: Event, results: Results) {
    e.Replies? && e.id in s.sent ==> Honest(s.sent[e.id], e.reply, results) && Safe(s, e.id, e.reply)
  }

  lemma TouchConsonant(s: State, offset: nat, results: Results)
    requires Consonant(s, results)
    ensures Consonant(Touch(s, offset), results)
  {
    assert forall k :: Current(Touch(s, offset), k) <==> Current(s, k);
  }

  lemma SendConsonant(s: State, offset: nat, replace: bool, results: Results)
    requires Consonant(s, results)
    ensures Consonant(Send(s, offset, replace), results)
  {
    var r := Send(s, offset, replace);
    assert forall k :: Current(r, k) ==> k == s.sequence || (Current(s, k) && r.sent[k] == s.sent[k]);
  }

  lemma RequestConsonant(s: State, offset: nat, replace: bool, results: Results)
    requires Consonant(s, results)
    ensures Consonant(RequestPage(s, offset, replace), results)
  {
    hide Consonant;
    TouchConsonant(s, offset, results);
    TouchConsonant(Touch(s, offset), 0, results);
    SendConsonant(Touch(Touch(s, offset), 0), 0, true, results);
    SendConsonant(Touch(s, offset), offset, replace, results);
  }

  lemma NextGenerationConsonant(s: State, results: Results)
    requires Valid(s)
    ensures Consonant(NextGeneration(s), results)
  {
    assert forall k :: !Current(NextGeneration(s), k);
  }

  lemma RestartConsonant(s: State, results: Results)
    requires Valid(s)
    ensures Consonant(Restart(s), results) && Consonant(Refresh(s), results)
  {
    NextGenerationKeeps(s);
    NextGenerationConsonant(s, results);
    var n := NextGeneration(s).(items := map[], total := 0, failed := false);
    assert PagesOf(map[]) == {};
    assert Valid(n) && Consonant(n, results) by { assert forall k :: !Current(n, k); }
    hide Valid, Consonant, NextGeneration;
    RequestConsonant(n, 0, true, results);
    RequestConsonant(NextGeneration(s), 0, true, results);
  }

  lemma AnswerConsonant(s: State, id: nat, reply: Reply, results: Results)
    requires Valid(s) && Consonant(s, results) && id in s.sent && Honest(s.sent[id], reply, results) && Safe(s, id, reply)
    ensures Consonant(Answer(s, id, reply), results)
  {
    var request := s.sent[id];
    if request.generation != s.generation {
      SettleConsonant(s, id, request, results);
    } else if Outdates(request, reply) {
      RestartConsonant(s, results);
      hide Consonant;
      SettleConsonant(Restart(s), id, request, results);
    } else if reply.Page? {
      AcceptAgrees(s, id, reply, results);
      AcceptPending(s, id, reply, results);
      hide Agrees, Pending, Valid, Safe, Accept;
      SettleConsonant(Accept(s, request, reply), id, request, results);
    } else {
      assert Consonant(s.(failed := true), results) by { assert forall k :: Current(s.(failed := true), k) <==> Current(s, k); }
      hide Consonant, Valid, Safe;
      SettleConsonant(s.(failed := true), id, request, results);
    }
  }

  lemma NextKeeps(s: State, e: Event, results: Results)
    requires Valid(s) && Consonant(s, results) && Fair(s, e, results)
    ensures Valid(Next(s, e)) && Consonant(Next(s, e), results)
  {
    NextValid(s, e);
    hide Valid, Consonant, Honest, Safe, Answer, Refresh;
    match e
    case Wants(offset) => RequestConsonant(s, PageOf(offset), false, results);
    case Refreshes => RestartConsonant(s, results);
    case Replies(id, reply) => if id in s.sent { AnswerConsonant(s, id, reply, results); }
  }

  // The runs in which every answer is fair.
  ghost predicate FairRun(s: State, events: seq<Event>, results: Results)
    decreases |events|
  {
    events == [] ||
      (FairRun(s, events[..|events| - 1], results) && Fair(After(s, events[..|events| - 1]), events[|events| - 1], results))
  }

  lemma {:induction false} FairKeeps(s: State, events: seq<Event>, results: Results)
    requires Valid(s) && Consonant(s, results) && FairRun(s, events, results)
    ensures Valid(After(s, events)) && Consonant(After(s, events), results)
    decreases |events|
  {
    hide Valid, Consonant, Fair, Next;
    if events != [] {
      FairKeeps(s, events[..|events| - 1], results);
      NextKeeps(After(s, events[..|events| - 1]), events[|events| - 1], results);
    }
  }

  // Over every such run the cache agrees with Core's ordered result at the held
  // revision.
  lemma RunAgrees(events: seq<Event>, results: Results)
    requires FairRun(Start(), events, results)
    ensures Agrees(After(Start(), events), results)
  {
    StartValid();
    assert Consonant(Start(), results);
    hide Valid, Start, Agrees, Pending, After;
    FairKeeps(Start(), events, results);
  }

  /** Exactly when merging the first page without replacing is safe. */

  // Core's results fit what is held and answered, and what follows is fair.
  ghost predicate Plausible(s: State, id: nat, reply: Reply, events: seq<Event>, results: Results)
    requires id in s.sent
  {
    Consonant(s, results) && Honest(s.sent[id], reply, results) && FairRun(Answer(s, id, reply), events, results)
  }

  ghost predicate AlwaysAgrees(s: State, id: nat, reply: Reply)
    requires id in s.sent
  {
    forall events, results | Plausible(s, id, reply, events, results) :: Agrees(After(Answer(s, id, reply), events), results)
  }

  // A first page merged into what is there leaves the cache in agreement with
  // Core, whatever Core's results are and whatever fair answers follow, exactly
  // if it is safe.
  lemma MergeExact(s: State, id: nat, reply: Reply, some: Results)
    requires Valid(s) && Current(s, id) && s.sent[id].offset == 0 && !s.sent[id].replace && reply.Page?
    requires Consonant(s, some) && Honest(s.sent[id], reply, some)
    ensures AlwaysAgrees(s, id, reply) <==> Safe(s, id, reply)
  {
    if Safe(s, id, reply) {
      forall events, results | Plausible(s, id, reply, events, results) ensures Agrees(After(Answer(s, id, reply), events), results) {
        SafeAgrees(s, id, reply, events, results);
      }
    } else if Leftover(s, reply) != {} {
      var other := OldItem(s, id, reply, some);
    } else {
      var k :| Current(s, k) && s.sent[k].offset > 0 && !(reply.total == s.total && s.sent[k].offset >= s.total);
      if reply.total != s.total {
        OldTotal(s, id, reply, k, some);
      } else {
        var events, other := OldPage(s, id, reply, k, some);
      }
    }
  }

  lemma SafeAgrees(s: State, id: nat, reply: Reply, events: seq<Event>, results: Results)
    requires Valid(s) && id in s.sent && Safe(s, id, reply) && Plausible(s, id, reply, events, results)
    ensures Agrees(After(Answer(s, id, reply), events), results)
  {
    AnswerValid(s, id, reply);
    AnswerConsonant(s, id, reply, results);
    hide Valid, Agrees, Pending, Answer, Safe, FairRun, After;
    FairKeeps(Answer(s, id, reply), events, results);
  }

  // The results with another item at one index of one revision.
  function Instead(results: Results, revision: nat, i: nat, x: Id): Results
    requires i < |results(revision)|
  {
    (v: nat) => if v == revision then results(revision)[i := x] else results(v)
  }

  lemma InsteadFits(s: State, request: Request, reply: Reply, some: Results, i: nat, x: Id)
    requires reply.Page? && i < |some(reply.revision)| && !reply.Fills(i) && s.snapshot != Some(reply.revision)
    requires Consonant(s, some) && Honest(request, reply, some)
    ensures Consonant(s, Instead(some, reply.revision, i, x)) && Honest(request, reply, Instead(some, reply.revision, i, x))
  {
    var other := Instead(some, reply.revision, i, x);
    assert forall v :: |other(v)| == |some(v)|;
    assert forall v | v != reply.revision :: other(v) == some(v);
  }

  lemma AcceptedIs(s: State, id: nat, reply: Reply)
    requires Current(s, id) && reply.Page? && !Outdates(s.sent[id], reply)
    ensures var r, a := Answer(s, id, reply), Accept(s, s.sent[id], reply);
      && r.items == a.items && r.total == a.total && r.snapshot == a.snapshot && r.access == a.access && r.sent == s.sent - {id}
      && r.generation == s.generation && r.sequence == s.sequence
  {
  }

  lemma StaysBehind(s: State, id: nat, reply: Reply, i: nat)
    requires Current(s, id) && s.sent[id].offset == 0 && !s.sent[id].replace && reply.Page? && i in Leftover(s, reply)
    ensures i in Answer(s, id, reply).items && Answer(s, id, reply).items[i] == s.items[i]
    ensures Answer(s, id, reply).snapshot == Some(reply.revision)
  {
    hide Retained;
    AcceptedIs(s, id, reply);
    hide Answer;
    assert i in Merged(s.items, reply);
  }

  // An old item stays behind; the new result may well differ there.
  lemma OldItem(s: State, id: nat, reply: Reply, some: Results) returns (other: Results)
    requires Valid(s) && Current(s, id) && s.sent[id].offset == 0 && !s.sent[id].replace && reply.Page?
    requires Consonant(s, some) && Honest(s.sent[id], reply, some)
    requires s.snapshot != Some(reply.revision) && Leftover(s, reply) != {}
    ensures Plausible(s, id, reply, [], other) && !Agrees(After(Answer(s, id, reply), []), other)
  {
    var i :| i in Leftover(s, reply);
    var x := s.items[i] + 1;
    assert |some(reply.revision)| == reply.total && !reply.Fills(i);
    StaysBehind(s, id, reply, i);
    hide Valid, Answer, Consonant, Honest, Leftover;
    other := some;
    if i < reply.total {
      other := Instead(some, reply.revision, i, x);
      InsteadFits(s, s.sent[id], reply, some, i, x);
      InsteadAt(some, reply.revision, i, x);
    }
    assert !AgreesAt(Answer(s, id, reply).items, other(reply.revision));
    NoEvents(Answer(s, id, reply), other);
  }

  lemma NoEvents(s: State, results: Results)
    ensures After(s, []) == s && FairRun(s, [], results)
  {
  }

  // What another request, a page further down, brings after the first page.
  lemma LaterAnswer(s: State, id: nat, reply: Reply, k: nat)
    requires Valid(s) && Current(s, id) && s.sent[id].offset == 0 && reply.Page? && Current(s, k) && s.sent[k].offset > 0
    ensures var r := Answer(s, id, reply);
      && Current(r, k) && r.sent[k] == s.sent[k] && r.snapshot == Some(reply.revision) && r.total == reply.total
      && Valid(r)
  {
    AnswerValid(s, id, reply);
    hide Valid;
    AcceptedIs(s, id, reply);
  }

  lemma OneEvent(s: State, e: Event)
    ensures After(s, [e]) == Next(s, e)
    ensures forall results :: FairRun(s, [e], results) <==> Fair(s, e, results)
  {
    assert [e][..0] == [];
    assert After(s, []) == s;
  }

  // The piece of the old result that a later request gets.
  function Piece(ordered: seq<Id>, offset: nat, revision: nat): Reply {
    Page(offset, if offset < |ordered| then [ordered[offset]] else [], |ordered|, revision)
  }

  lemma PieceHonest(request: Request, results: Results, revision: nat)
    ensures Honest(request, Piece(results(revision), request.offset, revision), results)
  {
  }

  // A later page of the old snapshot brings the old total back.
  lemma OldTotal(s: State, id: nat, reply: Reply, k: nat, some: Results)
    requires Valid(s) && Current(s, id) && s.sent[id].offset == 0 && !s.sent[id].replace && reply.Page?
    requires Consonant(s, some) && Honest(s.sent[id], reply, some)
    requires Current(s, k) && s.sent[k].offset > 0 && reply.total != s.total
    ensures !AlwaysAgrees(s, id, reply)
  {
    var r, v := Answer(s, id, reply), s.sent[k].expected.value;
    LaterAnswer(s, id, reply, k);
    var late := Piece(some(v), s.sent[k].offset, v);
    PieceHonest(s.sent[k], some, v);
    assert late.total == s.total && |some(reply.revision)| == reply.total;
    OneEvent(r, Replies(k, late));
    assert Fair(r, Replies(k, late), some);
    hide Answer, Valid, Accept, Piece, Consonant, Honest, Fair;
    LateTotal(r, k, late);
    assert Plausible(s, id, reply, [Replies(k, late)], some);
  }

  lemma LateTotal(s: State, k: nat, late: Reply)
    requires Current(s, k) && late.Page? && s.sent[k].offset > 0 && s.sent[k].expected == Some(late.revision)
    ensures Next(s, Replies(k, late)).total == late.total && Next(s, Replies(k, late)).snapshot == s.snapshot
  {
    AcceptedIs(s, k, late);
    AcceptTotal(s, s.sent[k], late);
  }

  lemma AcceptTotal(s: State, request: Request, reply: Reply)
    requires reply.Page?
    ensures Accept(s, request, reply).total == reply.total
    ensures request.offset > 0 ==> Accept(s, request, reply).snapshot == s.snapshot
  {
  }

  // What looking at a page in flight and then its answer leave.
  lemma LookedLate(r: State, k: nat, late: Reply, x: Id)
    requires Valid(r) && Current(r, k) && r.sent[k].offset > 0 && late.Page? && r.sent[k].expected == Some(late.revision)
    requires late == Page(r.sent[k].offset, [x], late.total, late.revision)
    ensures var after := After(r, [Wants(late.offset), Replies(k, late)]);
      late.offset in after.items && after.items[late.offset] == x && after.snapshot == r.snapshot
    ensures k in Next(r, Wants(late.offset)).sent && Next(r, Wants(late.offset)).sent[k] == r.sent[k]
  {
    var at := late.offset;
    assert PageOf(at) == at && !r.sent[k].replace;
    Looked(r, k);
    hide Valid, Next, Retained, After;
    LatePage(Next(r, Wants(at)), k, late, x);
    TwoEvents(r, Wants(at), Replies(k, late));
  }

  // A later page of the old snapshot, looked at again before it arrives, puts an
  // old item under the new revision.
  lemma OldPage(s: State, id: nat, reply: Reply, k: nat, some: Results) returns (events: seq<Event>, other: Results)
    requires Valid(s) && Current(s, id) && s.sent[id].offset == 0 && !s.sent[id].replace && reply.Page?
    requires Consonant(s, some) && Honest(s.sent[id], reply, some) && s.snapshot != Some(reply.revision)
    requires Current(s, k) && 0 < s.sent[k].offset < s.total == reply.total
    ensures Plausible(s, id, reply, events, other) && !Agrees(After(Answer(s, id, reply), events), other)
  {
    var r := Answer(s, id, reply);
    LaterAnswer(s, id, reply, k);
    var late: Reply;
    other, late := OtherItem(s, id, reply, k, some);
    hide Valid, Answer, Consonant, Honest, Next, After;
    LookedLate(r, k, late, late.ids[0]);
    events := [Wants(late.offset), Replies(k, late)];
    TwoEvents(r, Wants(late.offset), Replies(k, late));
    assert !AgreesAt(After(r, events).items, other(reply.revision));
    assert FairRun(r, events, other) by {
      hide AgreesAt, Agrees, FairRun;
      assert Fair(r, Wants(late.offset), other) && Fair(Next(r, Wants(late.offset)), Replies(k, late), other);
    }
  }

  // The new result may differ from the old one where the later page begins.
  lemma OtherItem(s: State, id: nat, reply: Reply, k: nat, some: Results) returns (other: Results, late: Reply)
    requires Valid(s) && Current(s, id) && s.sent[id].offset == 0 && reply.Page?
    requires Consonant(s, some) && Honest(s.sent[id], reply, some) && s.snapshot != Some(reply.revision)
    requires Current(s, k) && 0 < s.sent[k].offset < s.total == reply.total
    ensures Consonant(s, other) && Honest(s.sent[id], reply, other) && Honest(s.sent[k], late, other)
    ensures late.Page? && |late.ids| == 1 && late == Page(s.sent[k].offset, [late.ids[0]], late.total, late.revision)
    ensures s.sent[k].expected == Some(late.revision)
    ensures s.sent[k].offset < |other(reply.revision)| && other(reply.revision)[s.sent[k].offset] != late.ids[0]
  {
    hide Bounded, Ordered, AgreesAt;
    var at, v := s.sent[k].offset, s.sent[k].expected.value;
    assert s.sent[k].expected == s.snapshot && at % PAGE_SIZE == 0;
    assert at < |some(reply.revision)| && !reply.Fills(at) && at < |some(v)|;
    var x := some(v)[at];
    other := Instead(some, reply.revision, at, x + 1);
    late := Piece(some(v), at, v);
    assert other(v) == some(v);
    hide Tracked, Expectations, Consonant, Honest;
    InsteadFits(s, s.sent[id], reply, some, at, x + 1);
    InsteadAt(some, reply.revision, at, x + 1);
    PieceHonest(s.sent[k], other, v);
  }

  lemma InsteadAt(results: Results, revision: nat, i: nat, x: Id)
    requires i < |results(revision)|
    ensures |Instead(results, revision, i, x)(revision)| == |results(revision)| && Instead(results, revision, i, x)(revision)[i] == x
  {
  }

  lemma TwoEvents(s: State, a: Event, b: Event)
    ensures After(s, [a, b]) == Next(Next(s, a), b)
    ensures forall results :: FairRun(s, [a, b], results) <==> Fair(s, a, results) && Fair(Next(s, a), b, results)
  {
    OneEvent(s, a);
    assert [a, b][..1] == [a];
  }

  // Looking at a page that is in flight makes it the most recent one.
  lemma Looked(s: State, k: nat)
    requires Valid(s) && Current(s, k) && s.sent[k].offset > 0 && PageOf(s.sent[k].offset) == s.sent[k].offset
    ensures var r, at := Next(s, Wants(s.sent[k].offset)), s.sent[k].offset;
      && Current(r, k) && r.sent == s.sent && r.snapshot == s.snapshot
      && at in Retained(r.access)
  {
    hide Bounded, Expectations;
    var at := s.sent[k].offset;
    var r := Next(s, Wants(at));
    assert r == Touch(s, at);
    assert MoreRecent(r.access, at) == {};
  }

  lemma LatePage(s: State, k: nat, late: Reply, x: Id)
    requires Current(s, k) && s.sent[k].offset > 0 && !s.sent[k].replace
    requires late.Page? && s.sent[k].expected == Some(late.revision)
    requires late == Page(s.sent[k].offset, [x], late.total, late.revision)
    requires PageOf(late.offset) == late.offset && late.offset in Retained(s.access)
    ensures var r := Next(s, Replies(k, late));
      late.offset in r.items && r.items[late.offset] == x && r.snapshot == s.snapshot
  {
    hide Retained;
    AcceptedIs(s, k, late);
    assert late.Fills(late.offset);
    assert late.offset in Merged(s.items, late);
  }

  /** It does happen. */

  // The runs in which Core answers honestly.
  ghost predicate HonestRun(s: State, events: seq<Event>, results: Results)
    decreases |events|
  {
    events == [] ||
      (HonestRun(s, events[..|events| - 1], results) && HonestEvent(After(s, events[..|events| - 1]), events[|events| - 1], results))
  }

  ghost predicate HonestEvent(s: State, e: Event, results: Results) {
    e.Replies? && e.id in s.sent ==> Honest(s.sent[e.id], e.reply, results)
  }

  lemma {:induction false} AfterAppend(s: State, a: seq<Event>, b: seq<Event>, results: Results)
    ensures After(s, a + b) == After(After(s, a), b)
    ensures HonestRun(s, a + b, results) <==> HonestRun(s, a, results) && HonestRun(After(s, a), b, results)
    decreases |b|
  {
    hide Next, HonestEvent;
    if b == [] {
      assert a + b == a;
    } else {
      assert (a + b)[..|a + b| - 1] == a + b[..|b| - 1];
      AfterAppend(s, a, b[..|b| - 1], results);
    }
  }

  lemma OneHonest(s: State, e: Event, results: Results)
    ensures After(s, [e]) == Next(s, e) && (HonestRun(s, [e], results) <==> HonestEvent(s, e, results))
  {
    hide HonestEvent;
    assert [e][..0] == [];
    assert After(s, []) == s && HonestRun(s, [], results);
  }

  lemma ThreeHonest(s: State, a: Event, b: Event, c: Event, results: Results)
    ensures After(s, [a, b, c]) == Next(Next(Next(s, a), b), c)
    ensures HonestRun(s, [a, b, c], results)
       <==> HonestEvent(s, a, results) && HonestEvent(Next(s, a), b, results) && HonestEvent(Next(Next(s, a), b), c, results)
  {
    hide Next, HonestEvent;
    OneHonest(s, a, results);
    OneHonest(Next(s, a), b, results);
    OneHonest(Next(Next(s, a), b), c, results);
    assert [a] + [b] == [a, b] && [a, b] + [c] == [a, b, c];
    AfterAppend(s, [a], [b], results);
    AfterAppend(s, [a, b], [c], results);
  }

  // A refresh that fails keeps the old items, the first page is then asked for
  // without replacing, and a result that has become shorter leaves an old item
  // behind under the new revision.
  lemma FailedRefreshDisagrees(results: Results)
    requires results(1) == [7, 8] && results(2) == [7]
    ensures var events := [Replies(1, Page(0, [7, 8], 2, 1)), Refreshes, Replies(2, Reply.Failed), Wants(0), Replies(3, Page(0, [7], 1, 2))];
      HonestRun(Start(), events, results) && !Agrees(After(Start(), events), results)
  {
    hide Next, After, Start, Merged, HonestRun;
    var one, two := Page(0, [7, 8], 2, 1), Page(0, [7], 1, 2);
    var shown := Merged(map[], one);
    var s0 := State(map[], 0, map[0 := 1], map[0 := 1], {}, 0, 1, None, map[1 := Request(0, true, 0, None)], true, false);
    var s1 := State(shown, 2, map[], map[0 := 1], {0}, 0, 1, Some(1), map[], false, false);
    var s2 := State(shown, 2, map[0 := 2], map[0 := 2], {}, 1, 2, None, map[2 := Request(0, true, 1, None)], true, false);
    var s3 := State(shown, 2, map[], map[0 := 2], {}, 1, 2, None, map[], false, true);
    var s4 := State(shown, 2, map[0 := 3], map[0 := 3], {}, 1, 3, None, map[3 := Request(0, false, 1, None)], false, true);
    Starts(s0);
    FirstAnswer(s0, 1, one);
    Asked(s1, s2, s3, s4);
    FailedAnswer(s2, s3);
    LeftBehind(one, two);
    FirstAnswer(s4, 3, two);
    var front, back := [Replies(1, one), Refreshes, Replies(2, Reply.Failed)], [Wants(0), Replies(3, two)];
    ThreeHonest(s0, front[0], front[1], front[2], results);
    OneHonest(s3, back[0], results);
    OneHonest(s4, back[1], results);
    assert [back[0]] + [back[1]] == back;
    AfterAppend(s3, [back[0]], [back[1]], results);
    AfterAppend(s0, front, back, results);
    assert front + back == [Replies(1, one), Refreshes, Replies(2, Reply.Failed), Wants(0), Replies(3, two)];
  }

  lemma Starts(s: State)
    requires s == State(map[], 0, map[0 := 1], map[0 := 1], {}, 0, 1, None, map[1 := Request(0, true, 0, None)], true, false)
    ensures Start() == s
  {
  }

  lemma LeftBehind(one: Reply, two: Reply)
    requires one == Page(0, [7, 8], 2, 1) && two == Page(0, [7], 1, 2)
    ensures Merged(map[], one).Keys == {0, 1} && 1 in Merged(Merged(map[], one), two)
  {
    assert one.Fills(0) && one.Fills(1);
  }

  // The two requests in between.
  lemma Asked(s1: State, s2: State, s3: State, s4: State)
    requires s1 == State(s1.items, 2, map[], map[0 := 1], {0}, 0, 1, Some(1), map[], false, false)
    requires s2 == State(s1.items, 2, map[0 := 2], map[0 := 2], {}, 1, 2, None, map[2 := Request(0, true, 1, None)], true, false)
    requires s3 == State(s1.items, 2, map[], map[0 := 2], {}, 1, 2, None, map[], false, true)
    requires s4 == State(s1.items, 2, map[0 := 3], map[0 := 3], {}, 1, 3, None, map[3 := Request(0, false, 1, None)], false, true)
    ensures Next(s1, Refreshes) == s2 && Next(s3, Wants(0)) == s4
  {
  }

  // The answer to the only request, for the first page, in the held generation.
  lemma FirstAnswer(s: State, id: nat, reply: Reply)
    requires s.sent.Keys == {id} && s.sent[id].offset == 0 && s.sent[id].generation == s.generation && s.inFlight == map[0 := id]
    requires s.access.Keys == {0} && reply.Page? && reply.offset == 0 && |reply.ids| <= 2 && s.items.Keys <= {0, 1} && s.loaded == {}
    ensures Next(s, Replies(id, reply))
         == State(Merged(if s.sent[id].replace then map[] else s.items, reply), reply.total, map[], s.access, {0}, s.generation,
                  s.sequence, Some(reply.revision), map[], false, false)
  {
    hide Merged;
    OnePage(s.access);
    var next := Merged(if s.sent[id].replace then map[] else s.items, reply);
    assert forall i <- next :: PageOf(i) == 0 by { SmallPage(if s.sent[id].replace then map[] else s.items, reply); }
    var a := Accept(s, s.sent[id], reply);
    assert a.items == next;
    assert a.access == s.access;
    assert Settle(a, id, s.sent[id]).sent == map[];
    assert Settle(a, id, s.sent[id]).inFlight == map[];
  }

  lemma SmallPage(items: map<nat, Id>, reply: Reply)
    requires reply.Page? && reply.offset == 0 && |reply.ids| <= 2 && items.Keys <= {0, 1}
    ensures forall i <- Merged(items, reply) :: PageOf(i) == 0
  {
  }

  lemma FailedAnswer(s: State, r: State)
    requires s.sent.Keys == {2} && s.sent[2].offset == 0 && s.sent[2].generation == s.generation && s.inFlight == map[0 := 2]
    requires r == s.(sent := map[], inFlight := map[], loading := false, failed := true)
    ensures Next(s, Replies(2, Reply.Failed)) == r
  {
    assert s.sent - {2} == map[];
    assert s.inFlight - {0} == map[];
  }

  lemma OnePage(access: map<nat, nat>)
    requires access.Keys == {0}
    ensures Retained(access) == {0}
  {
    assert MoreRecent(access, 0) == {};
  }

  /** Nor does it take a refresh: scrolling is enough. */

  // The first page is there and the next `j` pages are on their way.
  function Flying(j: nat): map<nat, nat> {
    if j == 0 then map[] else Flying(j - 1)[100 * j := j + 1]
  }

  function Underway(j: nat): map<nat, Request> {
    if j == 0 then map[] else Underway(j - 1)[j + 1 := Request(100 * j, false, 0, Some(1))]
  }

  function Scrolled(a: Id, j: nat): State {
    State(map[0 := a], 801, Flying(j), Flying(j)[0 := 1], {0}, 0, j + 1, Some(1), Underway(j), false, false)
  }

  function Scroll(j: nat): seq<Event> {
    if j == 0 then [] else Scroll(j - 1) + [Wants(100 * j)]
  }

  lemma {:induction false} FlyingKeys(j: nat)
    ensures forall k <- Flying(j) :: 100 <= k <= 100 * j && 2 <= Flying(j)[k] <= j + 1 && (k != 100 * j ==> Flying(j)[k] <= j)
    ensures |Flying(j).Keys| == j
    ensures j > 0 ==> 100 * j in Flying(j) && Flying(j)[100 * j] == j + 1
    ensures j > 0 ==> j + 1 in Underway(j) && Underway(j)[j + 1] == Request(100 * j, false, 0, Some(1))
  {
    if j > 0 {
      FlyingKeys(j - 1);
      hide Underway;
      assert Flying(j).Keys == Flying(j - 1).Keys + {100 * j};
    }
  }

  lemma ScrollStep(a: Id, j: nat)
    ensures Next(Scrolled(a, j), Wants(100 * (j + 1))) == Scrolled(a, j + 1)
  {
    hide Flying, Underway, Merged, Accept, Retained, MoreRecent;
    FlyingKeys(j);
    var s, at := Scrolled(a, j), 100 * (j + 1);
    assert PageOf(at) == at && at !in s.inFlight && at !in s.loaded;
    assert Next(s, Wants(at)) == Send(Touch(s, at), at, false);
    FlyingNext(j);
    assert Flying(j)[0 := 1][at := j + 2] == Flying(j)[at := j + 2][0 := 1];
  }

  lemma FlyingNext(j: nat)
    ensures Flying(j + 1) == Flying(j)[100 * (j + 1) := j + 2]
    ensures Underway(j + 1) == Underway(j)[j + 2 := Request(100 * (j + 1), false, 0, Some(1))]
  {
  }

  lemma WantsHonest(s: State, offset: nat, results: Results)
    ensures HonestEvent(s, Wants(offset), results)
  {
  }

  lemma OneMore(s: State, events: seq<Event>, e: Event, results: Results)
    ensures After(s, events + [e]) == Next(After(s, events), e)
    ensures HonestRun(s, events + [e], results) <==> HonestRun(s, events, results) && HonestEvent(After(s, events), e, results)
  {
    hide Next, HonestEvent;
    assert (events + [e])[..|events|] == events;
  }

  lemma {:induction false} ScrollRun(a: Id, j: nat, results: Results)
    ensures After(Scrolled(a, 0), Scroll(j)) == Scrolled(a, j) && HonestRun(Scrolled(a, 0), Scroll(j), results)
  {
    hide Scrolled, Next, HonestEvent, After, HonestRun;
    if j == 0 {
      NothingYet(Scrolled(a, 0), results);
    } else {
      ScrollRun(a, j - 1, results);
      OneMore(Scrolled(a, 0), Scroll(j - 1), Wants(100 * j), results);
      WantsHonest(Scrolled(a, j - 1), 100 * j, results);
      ScrollStep(a, j - 1);
    }
  }

  lemma NothingYet(s: State, results: Results)
    ensures After(s, []) == s && HonestRun(s, [], results)
  {
  }

  lemma NinthRetained()
    ensures 0 !in Retained(Flying(8)[0 := 1]) && 800 in Retained(Flying(8)[0 := 1])
  {
    FlyingKeys(8);
    hide Flying, Underway;
    var access := Flying(8)[0 := 1];
    assert MoreRecent(access, 0) == Flying(8).Keys;
    assert MoreRecent(access, 800) == {};
  }

  // The ninth page arrives: the first page, long not looked at, is dropped.
  lemma NinthPage(a: Id, x: Id)
    ensures var t := Next(Scrolled(a, 8), Replies(9, Page(800, [x], 801, 1)));
      && 800 in t.items && t.items[800] == x && t.snapshot == Some(1)
      && 0 !in t.loaded && 0 !in t.inFlight && 0 !in t.access && 800 in t.access
      && (forall k <- t.access :: t.access[k] <= t.access[800]) && t.access[800] == 9
      && t.generation == 0 && t.sequence == 9 && t.total == 801
    ensures 9 in Scrolled(a, 8).sent && Scrolled(a, 8).sent[9] == Request(800, false, 0, Some(1))
  {
    hide Flying, Underway, Retained, Merged, MoreRecent;
    var s, late := Scrolled(a, 8), Page(800, [x], 801, 1);
    NinthRetained();
    FlyingKeys(8);
    LatePage(s, 9, late, x);
    AcceptedIs(s, 9, late);
  }

  // Looking at the first page again asks for it without replacing; the items of
  // the ninth page stay whatever revision it brings.
  lemma BackAgain(t: State, second: Reply)
    requires 800 in t.items && 800 in t.access && 0 !in t.loaded && 0 !in t.inFlight && 0 !in t.access
    requires (forall k <- t.access :: t.access[k] <= t.access[800]) && t.access[800] <= t.sequence
    requires second == Page(0, [7], 1, 2)
    ensures var u, id := Next(t, Wants(0)), t.sequence + 1;
      && id in u.sent && u.sent[id].offset == 0 && !u.sent[id].replace
      && 800 in Next(u, Replies(id, second)).items && Next(u, Replies(id, second)).snapshot == Some(2)
  {
    hide Retained;
    var u, id := Next(t, Wants(0)), t.sequence + 1;
    assert u == Send(Touch(t, 0), 0, false);
    assert MoreRecent(u.access, 800) == {0};
    assert 800 in Retained(u.access) by { FewAbove(u.access, 800); }
    assert 800 in Leftover(u, second);
    StaysBehind(u, id, second, 800);
  }

  lemma FewAbove(access: map<nat, nat>, k: nat)
    requires k in access && |MoreRecent(access, k)| < MAX_CACHED_PAGES
    ensures k in Retained(access)
  {
  }

  lemma FirstScrolled(a: Id, s: State)
    requires s == State(map[], 0, map[0 := 1], map[0 := 1], {}, 0, 1, None, map[1 := Request(0, true, 0, None)], true, false)
    ensures Next(s, Replies(1, Page(0, [a], 801, 1))) == Scrolled(a, 0)
  {
    var one := Page(0, [a], 801, 1);
    FirstAnswer(s, 1, one);
    hide Next;
    assert one.Fills(0);
    assert Merged(map[], one) == map[0 := a];
  }

  // Eight pages further down the first page is dropped; meanwhile the result
  // changes, and scrolling back brings the new first page beside old items.
  lemma ScrollingBackDisagrees(results: Results)
    requires |results(1)| == 801 && results(2) == [7]
    ensures var events := [Replies(1, Page(0, [results(1)[0]], 801, 1))] + Scroll(8)
        + [Replies(9, Page(800, [results(1)[800]], 801, 1)), Wants(0), Replies(10, Page(0, [7], 1, 2))];
      HonestRun(Start(), events, results) && !Agrees(After(Start(), events), results)
  {
    hide Next, Start, Scrolled, HonestRun, After, Scroll, Merged, Retained;
    var a, x := results(1)[0], results(1)[800];
    var one, late, second := Page(0, [a], 801, 1), Page(800, [x], 801, 1), Page(0, [7], 1, 2);
    var s0 := State(map[], 0, map[0 := 1], map[0 := 1], {}, 0, 1, None, map[1 := Request(0, true, 0, None)], true, false);
    Starts(s0);
    FirstScrolled(a, s0);
    OneHonest(s0, Replies(1, one), results);
    assert HonestEvent(s0, Replies(1, one), results);
    ScrollRun(a, 8, results);
    AfterAppend(s0, [Replies(1, one)], Scroll(8), results);
    var t := Next(Scrolled(a, 8), Replies(9, late));
    NinthPage(a, x);
    BackAgain(t, second);
    ThreeHonest(Scrolled(a, 8), Replies(9, late), Wants(0), Replies(10, second), results);
    AfterAppend(s0, [Replies(1, one)] + Scroll(8), [Replies(9, late), Wants(0), Replies(10, second)], results);
  }

  /** The hook's references and state, changed in place. */

  class Pager {
    var items: map<nat, Id>
    var total: nat
    var inFlight: map<nat, nat>
    var access: map<nat, nat>
    var loaded: set<nat>
    var generation: nat
    var sequence: nat
    var snapshot: Option<nat>
    var sent: map<nat, Request>
    var loading: bool
    var failed: bool

    ghost function View(): State
      reads this
    {
      State(items, total, inFlight, access, loaded, generation, sequence, snapshot, sent, loading, failed)
    }

    constructor ()
      ensures View() == Start() && Valid(View())
    {
      items, total, inFlight, access, loaded := map[], 0, map[], map[], {};
      generation, sequence, snapshot, sent, loading, failed := 0, 0, None, map[], true, false;
      new;
      StartValid();
      LoadPage(0, true);
    }

    method TouchPage(offset: nat)
      modifies this
      ensures View() == old(Touch(View(), offset))
    {
      sequence := sequence + 1;
      access := access[offset := sequence];
    }

    method SendRequest(offset: nat, replace: bool)
      modifies this
      ensures View() == old(Send(View(), offset, replace))
    {
      inFlight := inFlight[offset := sequence];
      sent := sent[sequence := Request(offset, replace, generation, if offset == 0 then None else snapshot)];
    }

    method LoadPage(offset: nat, replace: bool)
      modifies this
      ensures View() == old(RequestPage(View(), offset, replace))
    {
      TouchPage(offset);
      if !replace && offset in loaded {
        return;
      }
      if offset in inFlight {
        return;
      }
      if offset > 0 && snapshot.None? {
        TouchPage(0);
        if 0 !in inFlight {
          SendRequest(0, true);
        }
        return;
      }
      SendRequest(offset, replace);
    }

    method Advance()
      modifies this
      ensures View() == old(NextGeneration(View()))
    {
      generation := generation + 1;
      inFlight, access, loaded, snapshot, loading := map[], map[], {}, None, true;
    }

    method RefreshAll()
      modifies this
      ensures View() == old(Refresh(View()))
    {
      Advance();
      LoadPage(0, true);
    }

    method RestartSnapshot()
      modifies this
      ensures View() == old(Restart(View()))
    {
      Advance();
      items, total, failed := map[], 0, false;
      LoadPage(0, true);
    }

    // Merge an accepted page, then drop what the least recently used pages held.
    method AcceptPage(request: Request, reply: Reply)
      requires reply.Page?
      modifies this
      ensures View() == old(Accept(View(), request, reply))
    {
      hide Merged, Retained;
      if request.offset == 0 {
        snapshot := Some(reply.revision);
      }
      total := reply.total;
      if request.replace {
        loaded := {};
      }
      loaded := loaded + {request.offset};
      var next := Merged(if request.replace then map[] else items, reply);
      var retained := Retained(access);
      access := map k | k in access && k in retained :: access[k];
      loaded := loaded * retained;
      items := map i | i in next && PageOf(i) in retained :: next[i];
      failed := false;
    }

    method FinishRequest(id: nat, request: Request)
      modifies this
      ensures View() == old(Settle(View(), id, request))
    {
      if request.offset in inFlight && inFlight[request.offset] == id {
        inFlight := inFlight - {request.offset};
      }
      if request.generation == generation {
        loading := false;
      }
      sent := sent - {id};
    }

    method Receive(id: nat, reply: Reply)
      requires id in sent
      modifies this
      ensures View() == old(Answer(View(), id, reply))
    {
      var request := sent[id];
      if request.generation == generation {
        if reply.SnapshotChanged? || (reply.Page? && request.offset != 0 && request.expected != Some(reply.revision)) {
          RestartSnapshot();
        } else if reply.Page? {
          AcceptPage(request, reply);
        } else {
          failed := true;
        }
      }
      FinishRequest(id, request);
    }
  }
}
