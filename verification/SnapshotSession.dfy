/**
 The session's cached digest: pages are served from the very projection that the
 caller's digest summarises, however requests and writes interleave.
 */
module SnapshotSession {
  import opened Wrappers
  import opened Tables
  import opened Projection
  import opened History
  import opened CanonicalJson
  import opened CanonicalStream
  import opened CanonicalRecords
  import Pages = CanonicalPages
  import opened Decimals

  // What one read transaction sees.
  datatype Reading = Reading(sections: seq<Section>, revision: nat)

  ghost predicate Reads(e: Encoding, r: Reading, t: Tables) {
    && r.revision == t.revision && r.sections == Sections(e, t)
    && forall s <- r.sections :: Printable(s)
  }

  datatype Snapshot = Snapshot(digest: Text, counts: seq<nat>, revision: nat)

  // The snapshot summarises these sections.
  ghost predicate Summarises(x: Snapshot, hash: Text -> Text, sections: seq<Section>)
    requires forall s <- sections :: Printable(s)
  {
    && x.digest == hash(Preimage(sections))
    && |x.counts| == |sections| && forall i | 0 <= i < |sections| :: x.counts[i] == |sections[i].records|
  }

  ghost predicate Injective(hash: Text -> Text) {
    forall a: Text, b: Text {:trigger hash(a), hash(b)} | hash(a) == hash(b) :: a == b
  }

  // The cached snapshot is not from the future, and if the revision has not
  // moved since, it summarises what is there now.
  ghost predicate Dated(e: Encoding, hash: Text -> Text, cache: Option<Snapshot>, t: Tables) {
    cache.Some? ==>
      && cache.value.revision <= t.revision
      && (cache.value.revision == t.revision ==>
           forall r | Reads(e, r, t) :: Summarises(cache.value, hash, r.sections))
  }

  lemma SameSections(e: Encoding, a: Tables, b: Tables)
    requires SameMeaning(a, b)
    ensures Sections(e, a) == Sections(e, b)
  {
    hide Listing;
    forall i | 0 <= i < |ENTITIES| ensures Sections(e, a)[i] == Sections(e, b)[i] {
      assert Records(a, ENTITIES[i]) == Records(b, ENTITIES[i]);
    }
  }

  // Whatever transactions run, a dated snapshot stays dated.
  lemma DatedStands(e: Encoding, hash: Text -> Text, cache: Option<Snapshot>, s: State, actions: seq<Action>)
    requires Inv(s) && Dated(e, hash, cache, s.t)
    ensures Dated(e, hash, cache, Run(s, actions).t)
  {
    hide Inv, Preimage, Sections, Printable, Consistent;
    RunAdvances(s, actions);
    var t := Run(s, actions).t;
    if cache.Some? && cache.value.revision == t.revision {
      SameSections(e, s.t, t);
      forall r | Reads(e, r, t) ensures Summarises(cache.value, hash, r.sections) {
        assert Reads(e, r, s.t);
      }
    }
  }

  /** Documents weigh enough for the page algorithm. */

  lemma DocumentHeavy(e: Encoding, r: Record)
    requires Faithful(e)
    ensures |Pages.Compact(ToValue(e, r))| >= 17
  {
    var v := ToValue(e, r);
    var k0, k1 := e.utf8("recordType"), e.utf8("record");
    assert v.keys[0] == k0 && v.keys[1] == k1;
    EscapeGrows(k0);
    EscapeGrows(k1);
    assert |k0| >= |"recordType"| == 10;
    var rest := Pages.CompactMembers(v.keys[1..], v.values[1..]);
    hide ToValue, Escape;
    assert |rest| >= |Quoted(v.keys[1..][0])|;
    assert |Pages.CompactMembers(v.keys, v.values)| >= |Quoted(k0)|;
  }

  lemma PowerEight()
    ensures Pow(8) == U64
  {
    assert Pow(2) == 0x1_0000;
    assert Pow(4) == 0x1_0000_0000;
    assert Pow(6) == 0x1_0000_0000_0000;
  }

  lemma SectionWeighty(e: Encoding, t: Tables, i: nat)
    requires Faithful(e) && i < |ENTITIES| && Printable(Sections(e, t)[i])
    ensures Pages.Weighty(Sections(e, t)[i].records)
  {
    hide Listing, ToValue, Faithful;
    PowerEight();
    var records := Sections(e, t)[i].records;
    forall v <- records ensures |Pages.Compact(v)| >= 17 {
      var k :| 0 <= k < |records| && records[k] == v;
      DocumentHeavy(e, Listing(e, Records(t, ENTITIES[i]))[k]);
    }
  }

  /** The session. */

  predicate Holds(cache: Option<Snapshot>, digest: Text) { cache.Some? && cache.value.digest == digest }

  datatype Failure = SnapshotChanged | Refused(why: Pages.Refused)

  class Session {
    const hash: Text -> Text
    ghost const e: Encoding
    var snapshot: Option<Snapshot>

    constructor (hash: Text -> Text, ghost e: Encoding)
      requires Injective(hash) && Faithful(e)
      ensures Injective(this.hash) && Faithful(this.e) && snapshot.None?
    {
      this.hash, this.e, snapshot := hash, e, None;
    }

    method Digest(sections: seq<Section>, revision: nat) returns (x: Snapshot)
      requires forall s <- sections :: Printable(s)
      ensures x.revision == revision && Summarises(x, hash, sections)
    {
      var hasher, counts := DigestSnapshot(sections);
      x := Snapshot(hash(hasher.input), counts, revision);
    }

    // Compute the digest in one read transaction and remember it.
    method CanonicalDigest(now: Reading, ghost t: Tables) returns (digest: Text)
      requires Faithful(e) && Reads(e, now, t)
      modifies this
      ensures snapshot.Some? && snapshot.value.digest == digest && snapshot.value.revision == t.revision
      ensures digest == hash(Preimage(now.sections))
      ensures Dated(e, hash, snapshot, t)
    {
      var x := Digest(now.sections, now.revision);
      snapshot := Some(x);
      return x.digest;
    }

    // One page.  The digest of the request is checked against the cached one, or
    // a fresh one in a first transaction; the revision and the page are read in
    // a second, and anything may run in between.
    method CanonicalPage(digest: Text, i: nat, entity: Text, cursor: Option<Text>, limit: nat, first: Reading, second: Reading,
                         ghost s: State, ghost actions: seq<Action>) returns (r: Result<Pages.Page, Failure>)
      requires Faithful(e) && Inv(s) && i < |ENTITIES|
      requires Reads(e, first, s.t) && Reads(e, second, Run(s, actions).t)
      requires Dated(e, hash, snapshot, s.t)
      modifies this
      ensures Dated(e, hash, snapshot, Run(s, actions).t)
      ensures r.Ok? ==>
        && digest == hash(Preimage(second.sections))
        && Pages.Answers(Pages.Request(digest, entity, cursor, limit), second.sections[i].records, r.value)
        && Holds(snapshot, digest) && snapshot.value.revision == second.revision
      ensures Holds(old(snapshot), digest) ==> snapshot == old(snapshot)
      ensures r.Err? && r.error.Refused? ==>
        && Pages.Refuses(Pages.Request(digest, entity, cursor, limit), second.sections[i].records, r.error.why)
        && (r.error.why != Pages.LimitInvalid ==> digest == hash(Preimage(second.sections)))
      ensures r == Err(SnapshotChanged) <==>
        || (!Holds(old(snapshot), digest) && digest != hash(Preimage(first.sections)))
        || (&& 0 < limit <= Pages.MAX_CANONICAL_PAGE_SIZE
            && second.revision != if Holds(old(snapshot), digest) then old(snapshot).value.revision else first.revision)
    {
      hide Inv, Consistent, Preimage, Printable, Sections, Faithful, Pages.Answers, Pages.Fit, Pages.Weighty,
           Decimal;
      var x: Snapshot;
      if Holds(snapshot, digest) {
        x := snapshot.value;
      } else {
        x := Digest(first.sections, first.revision);
        if x.digest != digest {
          DatedStands(e, hash, snapshot, s, actions);
          return Err(SnapshotChanged);
        }
        snapshot := Some(x);
      }
      DatedStands(e, hash, snapshot, s, actions);
      if limit == 0 || limit > Pages.MAX_CANONICAL_PAGE_SIZE {
        return Err(Refused(Pages.LimitInvalid));
      }
      if second.revision != x.revision {
        return Err(SnapshotChanged);
      }
      assert second.sections[i] in second.sections;
      SectionWeighty(e, Run(s, actions).t, i);
      var page := Pages.PageFromSnapshot(Pages.Request(digest, entity, cursor, limit), x.counts[i], second.sections[i].records);
      match page {
        case Ok(p) => return Ok(p);
        case Err(why) => return Err(Refused(why));
      }
    }

    // One request of a reader who follows the cursors: the next piece of the
    // records that the digest summarises.
    method NextPage(digest: Text, i: nat, entity: Text, limit: nat, done: nat, first: Reading, second: Reading,
                    ghost home: State, ghost read: Reading, ghost s: State, ghost actions: seq<Action>)
      returns (r: Result<Pages.Page, Failure>)
      requires Faithful(e) && Injective(hash) && Inv(s) && i < |ENTITIES|
      requires Reads(e, first, s.t) && Reads(e, second, Run(s, actions).t) && Reads(e, read, home.t)
      requires Dated(e, hash, snapshot, s.t) && 0 < limit <= Pages.MAX_CANONICAL_PAGE_SIZE
      requires read == second || digest == hash(Preimage(read.sections))
      requires done <= |read.sections[i].records| && |read.sections[i].records| < U64 && (done > 0 ==> Holds(snapshot, digest))
      modifies this
      ensures Dated(e, hash, snapshot, Run(s, actions).t)
      ensures r.Ok? ==>
        var listing, n := read.sections[i].records, |r.value.records|;
        && digest == hash(Preimage(read.sections)) && Holds(snapshot, digest) && snapshot.value.revision == second.revision
        && done + n <= |listing| && r.value.records == listing[done..done + n]
        && r.value.next == Pages.NextAt(done + n, |listing|) && (done < |listing| ==> n > 0)
      ensures r.Err? && r.error.Refused? ==>
        && digest == hash(Preimage(read.sections))
        && Stops(Pages.Request(digest, entity, Pages.CursorAt(done), limit), read.sections[i].records, done, r.error.why)
      ensures done > 0 ==> snapshot == old(snapshot)
      ensures r == Err(SnapshotChanged) && done > 0 ==> second.revision != old(snapshot).value.revision
    {
      hide Inv, Consistent, Preimage, Printable, Sections, Faithful, Pages.Fit, Pages.Weighty, Injective, Dated, Decimal, DecodeCursor;
      var cursor := Pages.CursorAt(done);
      AtDone(done);
      r := CanonicalPage(digest, i, entity, cursor, limit, first, second, s, actions);
      if r.Ok? || r.error.Refused? {
        if read != second {
          NeverMixed(e, hash, home.t, Run(s, actions).t, read, second);
        }
      }
      if r.Ok? {
        Pages.PageIs(Pages.Request(digest, entity, cursor, limit), second.sections[i].records, r.value, done);
      }
    }

    // Following next cursors through the session, with any transactions between
    // and within the requests, yields every record of the digest's projection
    // once, in order, or tells that the snapshot changed, or that a record is
    // too large for a frame.
    method FollowPages(digest: Text, i: nat, entity: Text, limit: nat, firsts: seq<Reading>, seconds: seq<Reading>,
                       ghost states: seq<State>, ghost mids: seq<seq<Action>>, ghost gaps: seq<seq<Action>>)
      returns (pages: seq<Pages.Page>, error: Option<Failure>)
      requires Faithful(e) && Injective(hash) && i < |ENTITIES| && Watched(e, states, mids, gaps, firsts, seconds)
      requires Dated(e, hash, snapshot, states[0].t) && 0 < limit <= Pages.MAX_CANONICAL_PAGE_SIZE
      requires |seconds[0].sections[i].records| < |seconds|
      modifies this
      ensures error.None? ==>
        digest == hash(Preimage(seconds[0].sections)) && Pages.Joined(pages) == seconds[0].sections[i].records
      ensures error.Some? && error.value.Refused? ==>
        var listing, all := seconds[0].sections[i].records, Pages.Joined(pages);
        && digest == hash(Preimage(seconds[0].sections)) && |all| <= |listing| && all == listing[..|all|]
        && Stops(Pages.Request(digest, entity, Pages.CursorAt(|all|), limit), listing, |all|, error.value.why)
      ensures error == Some(SnapshotChanged) ==>
        pages == [] || exists k :: 0 < k < |seconds| && seconds[k].revision != seconds[0].revision
    {
      hide Inv, Consistent, Preimage, Printable, Sections, Faithful, Stops, Pages.Fit, Pages.Weighty, Injective, Dated, Decimal,
           Pages.Joined, Watched;
      pages, error := [], None;
      NoneJoined();
      var k, done := 0, 0;
      WatchedAt(e, states, mids, gaps, firsts, seconds, 0);
      ghost var home := Run(states[0], mids[0]);
      SectionFits(e, home.t, seconds[0], i);
      ghost var listing := seconds[0].sections[i].records;
      while true
        invariant done == |Pages.Joined(pages)| <= |listing| && Pages.Joined(pages) == listing[..done]
        invariant k == |pages| <= done && (k > 0 ==> 0 < done < |listing|)
        invariant k < |seconds| && Inv(states[k]) && Dated(e, hash, snapshot, states[k].t)
        invariant k > 0 ==> digest == hash(Preimage(seconds[0].sections)) && Holds(snapshot, digest)
        invariant k > 0 ==> snapshot.value.revision == seconds[0].revision
        decreases |listing| - done
      {
        WatchedAt(e, states, mids, gaps, firsts, seconds, k);
        var r := NextPage(digest, i, entity, limit, done, firsts[k], seconds[k], home, seconds[0], states[k], mids[k]);
        if r.Err? {
          return pages, Some(r.error);
        }
        Pages.JoinedAppend(pages, r.value);
        assert listing[..done] + r.value.records == listing[..done + |r.value.records|];
        pages := pages + [r.value];
        done := done + |r.value.records|;
        if r.value.next.None? {
          return;
        }
        Later(e, hash, snapshot, states, mids, gaps, firsts, seconds, k);
        k := k + 1;
      }
    }
  }

  // Where a reader of the whole listing can be refused.
  ghost predicate Stops(req: Pages.Request, listing: seq<Value>, done: nat, why: Pages.Refused) {
    if why == Pages.RecordExceedsFrame then done < |listing| && !Pages.Fit(req, listing, done, 1)
    else why == Pages.PageExceedsFrame && done == |listing|
  }

  // Request k reads its two snapshots in `states[k]` and after `mids[k]`; then
  // `gaps[k]` runs before the next request.
  ghost predicate Watched(e: Encoding, states: seq<State>, mids: seq<seq<Action>>, gaps: seq<seq<Action>>,
                          firsts: seq<Reading>, seconds: seq<Reading>) {
    && |states| == |mids| == |firsts| == |seconds| == |gaps| + 1
    && (forall k | 0 <= k < |states| :: Inv(states[k]))
    && (forall k | 0 <= k < |states| :: Reads(e, firsts[k], states[k].t) && Reads(e, seconds[k], Run(states[k], mids[k]).t))
    && (forall k | 0 <= k < |gaps| :: states[k + 1] == Run(Run(states[k], mids[k]), gaps[k]))
  }

  lemma WatchedAt(e: Encoding, states: seq<State>, mids: seq<seq<Action>>, gaps: seq<seq<Action>>,
                  firsts: seq<Reading>, seconds: seq<Reading>, k: nat)
    requires Watched(e, states, mids, gaps, firsts, seconds) && k < |seconds|
    ensures |states| == |mids| == |firsts| == |seconds| == |gaps| + 1
    ensures Inv(states[k]) && Reads(e, firsts[k], states[k].t) && Reads(e, seconds[k], Run(states[k], mids[k]).t)
  {
    hide Inv, Run, Reads;
  }

  lemma Later(e: Encoding, hash: Text -> Text, snapshot: Option<Snapshot>, states: seq<State>, mids: seq<seq<Action>>,
              gaps: seq<seq<Action>>, firsts: seq<Reading>, seconds: seq<Reading>, k: nat)
    requires Watched(e, states, mids, gaps, firsts, seconds) && k + 1 < |seconds| && Inv(states[k])
    requires Dated(e, hash, snapshot, Run(states[k], mids[k]).t)
    ensures Inv(states[k + 1]) && Dated(e, hash, snapshot, states[k + 1].t)
  {
    hide Inv, Run, Reads, Dated;
    DatedStands(e, hash, snapshot, Run(states[k], mids[k]), gaps[k]);
  }

  lemma SectionFits(e: Encoding, t: Tables, r: Reading, i: nat)
    requires Reads(e, r, t) && i < |ENTITIES|
    ensures |r.sections| == |ENTITIES| && |r.sections[i].records| < U64
  {
    hide Listing, ToValue, Pow;
    PowerEight();
    assert Printable(r.sections[i]);
  }

  lemma NoneJoined()
    ensures Pages.Joined([]) == []
  {
  }

  lemma AtDone(done: nat)
    requires done < U64
    ensures DecodeCursor(Pages.CursorAt(done)) == Some(done)
  {
    CursorBijection(done, EncodeCursor(done));
  }

  // Pages that were served for one digest, whenever that was, come from one and
  // the same projection, and the digest determines it.
  lemma NeverMixed(e: Encoding, hash: Text -> Text, a: Tables, b: Tables, ra: Reading, rb: Reading)
    requires Faithful(e) && Injective(hash) && Reads(e, ra, a) && Reads(e, rb, b)
    ensures hash(Preimage(ra.sections)) == hash(Preimage(rb.sections)) <==> SameMeaning(a, b)
    ensures SameMeaning(a, b) ==> ra.sections == rb.sections
  {
    DigestExact(e, a, b);
    if SameMeaning(a, b) {
      SameSections(e, a, b);
    }
  }
}
