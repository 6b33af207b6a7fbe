/**
 What each reply and each request does to the client's page cache, said of the
 state alone.
 */
module PagerLaws {
  import opened Wrappers
  import opened Tables
  import opened AssetPager

  // The only request of its generation, asking for the first page from scratch.
  ghost predicate AsksAfresh(s: State, k: nat) {
    && Current(s, k) && (forall j :: Current(s, j) ==> j == k)
    && s.sent[k].offset == 0 && s.sent[k].replace && s.sent[k].expected.None?
  }

  // Nothing is cached and everything asked before is outdated.
  ghost predicate StartsOver(s: State, r: State) {
    && r.generation > s.generation && r.snapshot.None? && r.loaded == {} && r.loading
    && exists k :: AsksAfresh(r, k)
  }

  lemma RestartStarts(s: State)
    requires Tracked(s)
    ensures var r := Restart(s);
      StartsOver(s, r) && r.items == map[] && r.total == 0 && !r.failed && r.sent.Keys >= s.sent.Keys
  {
    assert AsksAfresh(Restart(s), s.sequence + 1);
  }

  // A refresh goes on showing what was there.
  lemma RefreshStarts(s: State)
    requires Tracked(s)
    ensures var r := Refresh(s);
      StartsOver(s, r) && r.items == s.items && r.total == s.total && r.failed == s.failed
  {
    assert AsksAfresh(Refresh(s), s.sequence + 1);
  }

  lemma PagerStarts()
    ensures var s := Start();
      s.items == map[] && s.total == 0 && s.snapshot.None? && s.loaded == {} && s.loading && !s.failed && exists k :: AsksAfresh(s, k)
  {
    assert AsksAfresh(Start(), 1);
  }

  /** Replies. */

  // The snapshot is no longer what the request was made for.
  ghost predicate TellsMove(s: State, id: nat, reply: Reply)
    requires id in s.sent
  {
    reply.SnapshotChanged? || (reply.Page? && s.sent[id].offset > 0 && s.sent[id].expected != Some(reply.revision))
  }

  // Then everything is forgotten and the first page is asked for again.
  lemma MoveRestarts(s: State, id: nat, reply: Reply)
    requires Tracked(s) && Current(s, id) && TellsMove(s, id, reply)
    ensures var r := Answer(s, id, reply);
      StartsOver(s, r) && r.items == map[] && r.total == 0 && !r.failed && id !in r.sent
  {
    var r, k := Answer(s, id, reply), s.sequence + 1;
    assert r.sent == s.sent[k := Request(0, true, s.generation + 1, None)] - {id};
    assert AsksAfresh(r, k);
  }

  // A failure is shown; what is cached stays, and so does every other request.
  lemma FailureShows(s: State, id: nat)
    requires Current(s, id)
    ensures var r := Answer(s, id, Reply.Failed);
      && r.failed && !r.loading && r.sent == s.sent - {id}
      && r.items == s.items && r.total == s.total && r.snapshot == s.snapshot && r.loaded == s.loaded
      && r.access == s.access && r.generation == s.generation
  {
  }

  // A page that is accepted: each of its items is cached if its page is retained,
  // as are the old ones that it does not fill, unless it replaces them.
  lemma PageShows(s: State, id: nat, reply: Reply, i: nat)
    requires Current(s, id) && reply.Page? && !TellsMove(s, id, reply)
    ensures var r, kept := Answer(s, id, reply), PageOf(i) in Retained(s.access);
      && (reply.Fills(i) ==> if kept then i in r.items && r.items[i] == reply.ids[i - reply.offset] else i !in r.items)
      && (!reply.Fills(i) && !s.sent[id].replace && i in s.items ==> if kept then i in r.items && r.items[i] == s.items[i] else i !in r.items)
      && (!reply.Fills(i) && (s.sent[id].replace || i !in s.items) ==> i !in r.items)
    ensures var r, offset := Answer(s, id, reply), s.sent[id].offset;
      && r.total == reply.total && !r.failed && !r.loading && r.sent == s.sent - {id} && r.generation == s.generation
      && r.snapshot == (if offset == 0 then Some(reply.revision) else s.snapshot)
      && (offset in r.loaded <==> offset in Retained(s.access))
      && (forall k | k != offset :: k in r.loaded <==> !s.sent[id].replace && k in s.loaded && k in Retained(s.access))
      && (forall k :: k in r.access <==> k in Retained(s.access)) && forall k <- r.access :: k in s.access && r.access[k] == s.access[k]
  {
    hide Retained, MoreRecent;
    RetainedIn(s.access);
  }

  lemma RetainedIn(access: map<nat, nat>)
    ensures forall k <- Retained(access) :: k in access
  {
  }

  // An answer from before the last restart or refresh only leaves the list.
  lemma OldAnswer(s: State, id: nat, reply: Reply)
    requires id in s.sent && s.sent[id].generation != s.generation
    ensures var r := Answer(s, id, reply);
      r == s.(sent := s.sent - {id}, inFlight := r.inFlight)
      && (forall k | k in s.inFlight && s.inFlight[k] != id :: k in r.inFlight && r.inFlight[k] == s.inFlight[k])
  {
    hide Accept, Restart;
    var r, offset := Answer(s, id, reply), s.sent[id].offset;
    assert r == Settle(s, id, s.sent[id]);
    assert r.inFlight == s.inFlight || r.inFlight == s.inFlight - {offset};
  }

  /** Requests. */

  lemma PageHolds(i: nat)
    ensures PageOf(i) <= i < PageOf(i) + PAGE_SIZE && PageOf(i) % PAGE_SIZE == 0
  {
  }

  // A page that is there or on its way is not asked for again; any other one is,
  // at the held snapshot, or the first page is if there is none.
  lemma RequestAsks(s: State, offset: nat)
    ensures var r, k := RequestPage(s, offset, false), RequestPage(s, offset, false).sequence;
      && (offset in s.loaded || offset in s.inFlight ==> r.sent == s.sent && r.inFlight == s.inFlight)
      && (offset !in s.loaded && offset !in s.inFlight ==>
            if offset == 0 || s.snapshot.Some?
            then r.sent == s.sent[k := Request(offset, false, s.generation, if offset == 0 then None else s.snapshot)]
                 && r.inFlight == s.inFlight[offset := k]
            else if 0 in s.inFlight then r.sent == s.sent && r.inFlight == s.inFlight
            else r.sent == s.sent[k := Request(0, true, s.generation, None)] && r.inFlight == s.inFlight[0 := k])
      && r == s.(sent := r.sent, inFlight := r.inFlight, access := r.access, sequence := r.sequence)
  {
  }

  // Looking at a page makes it the most recently used, so it is retained.
  lemma LookedAtStays(s: State, offset: nat)
    requires Ordered(s.access, s.sequence)
    ensures var r := RequestPage(s, offset, false);
      && offset in r.access && offset in Retained(r.access)
      && (forall k <- s.access | k != offset && k != 0 :: k in r.access && r.access[k] == s.access[k] < r.access[offset])
  {
    hide Retained, MoreRecent, RequestPage;
    RequestAccess(s, offset);
    var r := RequestPage(s, offset, false);
    assert forall k <- s.access :: s.access[k] <= s.sequence;
    assert offset in r.access && forall k <- r.access | k != offset && k != 0 :: r.access[k] < r.access[offset];
    OnlyFirst(r.access, offset);
  }

  lemma RequestAccess(s: State, offset: nat)
    ensures var touched, r := s.access[offset := s.sequence + 1], RequestPage(s, offset, false);
      r.access == touched || (offset > 0 && r.access == touched[0 := s.sequence + 2])
  {
    hide Send, Touch;
    var once := Touch(s, offset);
    var twice := Touch(once, 0);
    TouchAccess(s, offset);
    TouchAccess(once, 0);
    SendAccess(once, offset, false);
    SendAccess(twice, 0, true);
  }

  lemma TouchAccess(s: State, offset: nat)
    ensures var r := Touch(s, offset);
      r.access == s.access[offset := s.sequence + 1] && r.sequence == s.sequence + 1 && r.inFlight == s.inFlight && r.snapshot == s.snapshot
  {
  }

  lemma SendAccess(s: State, offset: nat, replace: bool)
    ensures Send(s, offset, replace).access == s.access
  {
  }

  lemma OnlyFirst(access: map<nat, nat>, offset: nat)
    requires offset in access && forall k <- access | k != offset && k != 0 :: access[k] < access[offset]
    ensures offset in Retained(access)
  {
    assert MoreRecent(access, offset) <= {0};
    Few(MoreRecent(access, offset));
  }

  lemma Few(a: set<nat>)
    requires a <= {0}
    ensures |a| <= 1
  {
    assert a == {} || a == {0};
  }
}
