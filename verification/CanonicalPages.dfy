/**
 Bounded pages of canonical records: as many records as the limit and one frame
 allow, and a cursor to the rest.
 */
module CanonicalPages {
  import opened Wrappers
  import opened CanonicalJson
  import opened Decimals

  const MAX_FRAME_BYTES := 1024 * 1024
  const MAX_CANONICAL_PAGE_SIZE := 250
  const MAX_REQUEST_ID_BYTES := 128

  /** The response frame, printed compactly, members in declaration order. */

  function Compact(v: Value): Text
    decreases v, 1
  {
    match v
    case Null => [110, 117, 108, 108]
    case Bool(truth) => if truth then [116, 114, 117, 101] else [102, 97, 108, 115, 101]
    case Number(digits) => digits
    case String(text) => Quoted(text)
    case Array(items) => [91] + CompactItems(items) + [93]
    case Object(keys, values) => [123] + CompactMembers(keys, values) + [125]
  }

  function CompactItems(items: seq<Value>): Text
    decreases items, 0
  {
    if items == [] then [] else
      Compact(items[0]) + (if |items| > 1 then [44] else []) + CompactItems(items[1..])
  }

  function CompactMembers(keys: seq<Text>, values: seq<Value>): Text
    decreases values, 0
  {
    if keys == [] || values == [] then [] else
      Quoted(keys[0]) + [58] + Compact(values[0]) + (if |values| > 1 then [44] else []) + CompactMembers(keys[1..], values[1..])
  }

  function Ascii(s: string): Text { seq(|s|, i requires 0 <= i < |s| => (s[i] as int) % 256) }

  function Names(names: seq<string>): (keys: seq<Text>)
    ensures |keys| == |names|
  {
    seq(|names|, i requires 0 <= i < |names| => Ascii(names[i]))
  }

  datatype Request = Request(digest: Text, entity: Text, cursor: Option<Text>, limit: nat)

  datatype Page = Page(records: seq<Value>, next: Option<Text>)

  function OptText(t: Option<Text>): Value { if t.Some? then String(t.value) else Null }

  const PAGE_FIELDS := ["format", "snapshotDigest", "entity", "cursor", "limit", "total", "records", "nextCursor"]

  function PageFields(req: Request, total: nat, page: Page): (values: seq<Value>)
    ensures |values| == 8
  {
    [String(Ascii("pitchdog-reference-canonical-projection-v1")), String(req.digest), String(req.entity), OptText(req.cursor),
     Value.Number(Decimal(req.limit)), Value.Number(Decimal(total)), Array(page.records), OptText(page.next)]
  }

  function PageValue(req: Request, total: nat, page: Page): Value {
    Object(Names(PAGE_FIELDS), PageFields(req, total, page))
  }

  function ResultValue(page: Value): Value {
    Object(Names(["result", "value"]), [String(Ascii("canonical_page")), page])
  }

  function FrameValue(result: Value): Value {
    Object(Names(["kind", "protocolVersion", "requestId", "result"]),
           [String(Ascii("response")), Value.Number([49]), String(seq(MAX_REQUEST_ID_BYTES, i => 114)), result])
  }

  // The bytes of the frame that answers a request with this page, under the
  // longest request id.
  function PageSize(req: Request, total: nat, page: Page): nat {
    |Compact(FrameValue(ResultValue(PageValue(req, total, page))))|
  }

  /** What a page adds to the empty page. */

  function Content(records: seq<Value>): nat {
    if records == [] then 0 else
      Content(records[..|records| - 1]) + (if |records| > 1 then 1 else 0) + |Compact(records[|records| - 1])|
  }

  function NextSize(next: Option<Text>): nat { if next.Some? then |next.value| + 2 else 4 }

  // Replacing one member changes the size by the difference of the two values.
  lemma {:induction false} ReplaceMember(keys: seq<Text>, values: seq<Value>, i: nat, v: Value)
    requires i < |values| == |keys|
    ensures |CompactMembers(keys, values[i := v])| + |Compact(values[i])| == |CompactMembers(keys, values)| + |Compact(v)|
    decreases i
  {
    hide Compact, Quoted;
    if i > 0 {
      assert values[i := v][1..] == values[1..][i - 1 := v];
      ReplaceMember(keys[1..], values[1..], i - 1, v);
    } else {
      assert values[0 := v][1..] == values[1..];
    }
  }

  lemma ReplaceInObject(keys: seq<Text>, values: seq<Value>, i: nat, v: Value)
    requires i < |values| == |keys|
    ensures |Compact(Object(keys, values[i := v]))| + |Compact(values[i])| == |Compact(Object(keys, values))| + |Compact(v)|
  {
    ReplaceMember(keys, values, i, v);
  }

  // Two pages of one request differ in size by what they hold.
  lemma FrameDifference(req: Request, total: nat, a: Page, b: Page)
    ensures PageSize(req, total, a) + |Compact(PageValue(req, total, b))| == PageSize(req, total, b) + |Compact(PageValue(req, total, a))|
  {
    hide Compact;
    var pa, pb := PageValue(req, total, a), PageValue(req, total, b);
    var ra, rb := ResultValue(pa), ResultValue(pb);
    ReplaceInObject(ra.keys, ra.values, 1, pb);
    assert ra.values[1 := pb] == rb.values;
    var fa, fb := FrameValue(ra), FrameValue(rb);
    ReplaceInObject(fa.keys, fa.values, 3, rb);
    assert fa.values[3 := rb] == fb.values;
  }

  lemma PageDifference(req: Request, total: nat, page: Page)
    ensures |Compact(PageValue(req, total, page))| + |Compact(Array([]))| + |Compact(Null)|
         == |Compact(PageValue(req, total, Page([], None)))| + |Compact(Array(page.records))| + |Compact(OptText(page.next))|
  {
    hide Compact;
    var keys, empty, full := Names(PAGE_FIELDS), PageFields(req, total, Page([], None)), PageFields(req, total, page);
    ReplaceInObject(keys, empty, 6, Array(page.records));
    ReplaceInObject(keys, empty[6 := Array(page.records)], 7, OptText(page.next));
    assert empty[6 := Array(page.records)][7 := OptText(page.next)] == full;
  }

  lemma {:induction false} ItemsSize(items: seq<Value>, last: Value)
    ensures |CompactItems(items + [last])| == |CompactItems(items)| + (if items == [] then 0 else 1) + |Compact(last)|
  {
    hide Compact;
    if items == [] {
      assert items + [last] == [last] && [last][1..] == [];
    } else {
      assert (items + [last])[1..] == items[1..] + [last];
      ItemsSize(items[1..], last);
    }
  }

  lemma {:induction false} ContentIsSize(records: seq<Value>)
    ensures |CompactItems(records)| == Content(records)
    decreases |records|
  {
    hide Compact;
    if records != [] {
      var front, last := records[..|records| - 1], records[|records| - 1];
      assert records == front + [last];
      ContentIsSize(front);
      ItemsSize(front, last);
    }
  }

  lemma {:induction false} DigitsPlain(t: Text)
    requires Digits(t)
    ensures |Escape(t)| == |t|
  {
    if t != [] { DigitsPlain(t[1..]); }
  }

  ghost predicate CursorText(next: Option<Text>) { next.Some? ==> Digits(next.value) }

  // The incremental byte count is the size of the frame.
  lemma PageSizeIs(req: Request, total: nat, page: Page)
    requires CursorText(page.next)
    ensures PageSize(req, total, page) + 4 == PageSize(req, total, Page([], None)) + Content(page.records) + NextSize(page.next)
  {
    hide PageValue, PageSize;
    FrameDifference(req, total, page, Page([], None));
    PageDifference(req, total, page);
    ContentIsSize(page.records);
    if page.next.Some? { DigitsPlain(page.next.value); }
  }

  /** Pages of a listing. */

  function NextAt(end: nat, total: nat): Option<Text> {
    if end < total then Some(EncodeCursor(end)) else None
  }

  lemma NextAtText(end: nat, total: nat)
    ensures CursorText(NextAt(end, total))
  {
    DecimalReads(end);
  }

  // The page of `count` records from `offset`.
  ghost function Slice(listing: seq<Value>, offset: nat, count: nat): Page
    requires offset + count <= |listing|
  {
    Page(listing[offset..offset + count], NextAt(offset + count, |listing|))
  }

  ghost predicate Fit(req: Request, listing: seq<Value>, offset: nat, count: nat)
    requires offset + count <= |listing|
  {
    PageSize(req, |listing|, Slice(listing, offset, count)) <= MAX_FRAME_BYTES
  }

  // A record is wrapped in its type tag, which outweighs what a next cursor saves.
  ghost predicate Weighty(listing: seq<Value>) {
    && |listing| < U64
    && forall r <- listing :: |Compact(r)| >= 17
  }

  lemma TwentyDigits()
    ensures Tens(20) > U64
  {
    assert Tens(4) == 10_000;
    assert Tens(8) == 10_000 * Tens(4) by { assert Tens(6) == 100 * Tens(4); }
    assert Tens(12) == 10_000 * Tens(8) by { assert Tens(10) == 100 * Tens(8); }
    assert Tens(16) == 10_000 * Tens(12) by { assert Tens(14) == 100 * Tens(12); }
    assert Tens(20) == 10_000 * Tens(16) by { assert Tens(18) == 100 * Tens(16); }
  }

  lemma NextShort(end: nat, total: nat)
    requires end < total < U64
    ensures NextSize(NextAt(end, total)) <= 22
  {
    TwentyDigits();
    DecimalShort(end, 20, Tens(20));
  }

  // One more record never makes the frame smaller.
  lemma SizeGrows(req: Request, listing: seq<Value>, offset: nat, count: nat)
    requires Weighty(listing) && count > 0 && offset + count < |listing|
    ensures PageSize(req, |listing|, Slice(listing, offset, count)) <= PageSize(req, |listing|, Slice(listing, offset, count + 1))
  {
    hide PageSize, Compact;
    var total := |listing|;
    var a, b := Slice(listing, offset, count), Slice(listing, offset, count + 1);
    NextAtText(offset + count, total);
    NextAtText(offset + count + 1, total);
    PageSizeIs(req, total, a);
    PageSizeIs(req, total, b);
    assert b.records[..count] == a.records;
    assert b.records[count] == listing[offset + count] && listing[offset + count] in listing;
    NextShort(offset + count, total);
    DecimalGrows(offset + count, offset + count + 1);
  }

  lemma {:induction false} FitShrinks(req: Request, listing: seq<Value>, offset: nat, few: nat, many: nat)
    requires Weighty(listing) && 0 < few <= many && offset + many <= |listing|
    requires Fit(req, listing, offset, many)
    ensures Fit(req, listing, offset, few)
    decreases many
  {
    if few < many {
      SizeGrows(req, listing, offset, many - 1);
      FitShrinks(req, listing, offset, few, many - 1);
    }
  }

  /** The page algorithm. */

  datatype Refused = LimitInvalid | CursorMalformed | CursorOutside | RecordExceedsFrame | PageExceedsFrame

  function Min(a: nat, b: nat): nat { if a <= b then a else b }

  // The page that answers a request: the longest run of records from the cursor
  // that the limit and one frame allow.
  ghost predicate Answers(req: Request, listing: seq<Value>, page: Page) {
    && DecodeCursor(req.cursor).Some?
    && var offset, count := DecodeCursor(req.cursor).value, |page.records|;
      && offset + count <= |listing|
      && page == Slice(listing, offset, count)
      && count <= req.limit
      && Fit(req, listing, offset, count)
      && (offset < |listing| ==> count > 0)
      && forall more | count < more <= req.limit && offset + more <= |listing| :: !Fit(req, listing, offset, more)
  }

  // Why a request is refused.
  ghost predicate Refuses(req: Request, listing: seq<Value>, why: Refused) {
    var offset := DecodeCursor(req.cursor);
    match why
    case LimitInvalid => req.limit == 0 || req.limit > MAX_CANONICAL_PAGE_SIZE
    case CursorMalformed => offset.None?
    case CursorOutside => offset.Some? && offset.value > |listing|
    case RecordExceedsFrame => offset.Some? && offset.value < |listing| && !Fit(req, listing, offset.value, 1)
    case PageExceedsFrame => offset.Some? && offset.value == |listing| && !Fit(req, listing, offset.value, 0)
  }

  // What the loop has gathered: its records, the size of what they add, and
  // whether it was the first record that did not fit.
  method Gather(req: Request, listing: seq<Value>, offset: nat) returns (count: nat, tooLong: bool)
    requires Weighty(listing) && offset <= |listing| && 0 < req.limit
    ensures offset + count <= |listing| && count <= req.limit
    ensures tooLong ==> count == 0 && offset < |listing| && !Fit(req, listing, offset, 1)
    ensures !tooLong ==> (offset < |listing| ==> count > 0) && (count > 0 ==> Fit(req, listing, offset, count))
    ensures count < req.limit && offset + count < |listing| ==> !Fit(req, listing, offset, count + 1)
  {
    hide Fit, PageSize, Compact;
    var total := |listing|;
    var content := 0;
    count, tooLong := 0, false;
    while count < req.limit && offset + count < |listing|
      invariant offset + count <= |listing| && count <= req.limit
      invariant content == Content(listing[offset..offset + count])
      invariant count > 0 ==> Fit(req, listing, offset, count)
      decreases req.limit - count
    {
      var record := listing[offset + count];
      var envelope := PageSize(req, total, Page([], NextAt(offset + count + 1, total)));
      var separator := if count == 0 then 0 else 1;
      var candidate := content + separator + |Compact(record)|;
      OneMore(req, listing, offset, count);
      if envelope + candidate > MAX_FRAME_BYTES {
        tooLong := count == 0;
        return;
      }
      content := candidate;
      count := count + 1;
    }
  }

  // The loop's running sum is the size of the page with one more record.
  lemma OneMore(req: Request, listing: seq<Value>, offset: nat, count: nat)
    requires offset + count < |listing|
    ensures var envelope := PageSize(req, |listing|, Page([], NextAt(offset + count + 1, |listing|)));
      var candidate := Content(listing[offset..offset + count]) + (if count == 0 then 0 else 1) + |Compact(listing[offset + count])|;
      && candidate == Content(listing[offset..offset + count + 1])
      && (Fit(req, listing, offset, count + 1) <==> envelope + candidate <= MAX_FRAME_BYTES)
  {
    hide PageSize, Compact;
    var total, next := |listing|, NextAt(offset + count + 1, |listing|);
    var longer := listing[offset..offset + count + 1];
    assert longer[..count] == listing[offset..offset + count] && longer[count] == listing[offset + count];
    NextAtText(offset + count + 1, total);
    PageSizeIs(req, total, Slice(listing, offset, count + 1));
    PageSizeIs(req, total, Page([], next));
  }

  // The total comes from the digest's counts, the listing from the same snapshot.
  method PageFromSnapshot(req: Request, total: nat, listing: seq<Value>) returns (r: Result<Page, Refused>)
    requires Weighty(listing) && total == |listing|
    ensures r == Err(LimitInvalid) <==> req.limit == 0 || req.limit > 250
    ensures r == Err(CursorMalformed) <==> 0 < req.limit <= 250 && DecodeCursor(req.cursor).None?
    ensures 0 < req.limit <= 250 && DecodeCursor(req.cursor).Some? ==>
      var offset := DecodeCursor(req.cursor).value;
      && (r == Err(CursorOutside) <==> offset > |listing|)
      && (r == Err(RecordExceedsFrame) <==> offset < |listing| && !Fit(req, listing, offset, 1))
      && (r == Err(PageExceedsFrame) <==> offset == |listing| && !Fit(req, listing, offset, 0))
    ensures r.Ok? ==> Answers(req, listing, r.value)
    ensures r.Err? ==> Refuses(req, listing, r.error)
  {
    hide Fit, PageSize, Compact;
    if req.limit == 0 || req.limit > MAX_CANONICAL_PAGE_SIZE {
      return Err(LimitInvalid);
    }
    var decoded := DecodeCursor(req.cursor);
    if decoded.None? {
      return Err(CursorMalformed);
    }
    var offset := decoded.value;
    if offset > total {
      return Err(CursorOutside);
    }
    var count, tooLong := Gather(req, listing, offset);
    if tooLong {
      return Err(RecordExceedsFrame);
    }
    var page := Page(listing[offset..offset + count], NextAt(offset + count, total));
    FitIs(req, listing, offset, count);
    if count > 0 { FitShrinks(req, listing, offset, 1, count); }
    if PageSize(req, total, page) > MAX_FRAME_BYTES {
      return Err(PageExceedsFrame);
    }
    forall more | count < more <= req.limit && offset + more <= |listing| ensures !Fit(req, listing, offset, more) {
      if Fit(req, listing, offset, more) { FitShrinks(req, listing, offset, count + 1, more); }
    }
    return Ok(page);
  }

  lemma FitIs(req: Request, listing: seq<Value>, offset: nat, count: nat)
    requires offset + count <= |listing|
    ensures Fit(req, listing, offset, count)
       <==> PageSize(req, |listing|, Page(listing[offset..offset + count], NextAt(offset + count, |listing|))) <= MAX_FRAME_BYTES
  {
  }

  /** Following the cursors. */

  // One request on the way.
  method Turn(req: Request, listing: seq<Value>, ghost done: nat) returns (r: Result<Page, Refused>)
    requires Weighty(listing) && 0 < req.limit <= MAX_CANONICAL_PAGE_SIZE && DecodeCursor(req.cursor) == Some(done) && done <= |listing|
    ensures r.Ok? ==>
      && done + |r.value.records| <= |listing| && r.value.records == listing[done..done + |r.value.records|]
      && r.value.next == NextAt(done + |r.value.records|, |listing|)
      && (done < |listing| ==> r.value.records != [])
    ensures r.Err? ==>
      if r.error.RecordExceedsFrame? then done < |listing| && !Fit(req, listing, done, 1)
      else r.error.PageExceedsFrame? && done == |listing|
  {
    r := PageFromSnapshot(req, |listing|, listing);
    hide Fit, Weighty, DecodeCursor;
    if r.Ok? {
      PageIs(req, listing, r.value, done);
    } else {
      assert r == Err(r.error);
    }
  }

  // The cursor with which a reader who has so many records goes on.
  function CursorAt(done: nat): Option<Text> { if done == 0 then None else Some(EncodeCursor(done)) }

  // Following next cursors from the start yields every record once, in order,
  // in at most as many pages as records and never an empty one on the way, or
  // stops where a single record does not fit a frame.
  method ReadAll(digest: Text, entity: Text, limit: nat, listing: seq<Value>) returns (pages: seq<Page>, error: Option<Refused>)
    requires Weighty(listing) && 0 < limit <= MAX_CANONICAL_PAGE_SIZE
    ensures error.None? ==> Joined(pages) == listing
    ensures |Joined(pages)| <= |listing|
    ensures error.Some? ==>
      && Joined(pages) == listing[..|Joined(pages)|]
      && if error == Some(RecordExceedsFrame)
         then
           var done := |Joined(pages)|;
           done < |listing| && !Fit(Request(digest, entity, CursorAt(done), limit), listing, done, 1)
         else error == Some(PageExceedsFrame) && listing == []
    ensures |listing| > 0 ==> forall p <- pages :: p.records != []
    ensures |pages| <= |listing| + 1
  {
    pages, error := [], None;
    var cursor: Option<Text> := None;
    assert DecodeCursor(cursor) == Some(0);
    assert Joined(pages) == [];
    hide Fit, PageSize, Compact, Answers, Weighty, DecodeCursor, Decimal, Joined;
    ghost var done := 0;
    while true
      invariant cursor == CursorAt(done) && DecodeCursor(cursor) == Some(done) && done == |Joined(pages)| <= |listing|
      invariant Joined(pages) == listing[..done] && |pages| <= done
      invariant (forall p <- pages :: p.records != []) && (done == 0 || done < |listing|)
      decreases |listing| - done
    {
      var r := Turn(Request(digest, entity, cursor, limit), listing, done);
      if r.Err? {
        return pages, Some(r.error);
      }
      var page := r.value;
      JoinedAppend(pages, page);
      assert listing[..done] + page.records == listing[..done + |page.records|];
      pages := pages + [page];
      done := done + |page.records|;
      if page.next.None? {
        return pages, None;
      }
      WeightyFits(listing);
      CursorBijection(done, EncodeCursor(done));
      cursor := page.next;
    }
  }

  lemma WeightyFits(listing: seq<Value>)
    requires Weighty(listing)
    ensures |listing| < U64
  {
  }

  lemma PageIs(req: Request, listing: seq<Value>, page: Page, done: nat)
    requires Answers(req, listing, page) && DecodeCursor(req.cursor) == Some(done)
    ensures done + |page.records| <= |listing| && page.records == listing[done..done + |page.records|]
    ensures page.next == NextAt(done + |page.records|, |listing|)
    ensures done < |listing| ==> page.records != []
  {
    hide Fit;
  }

  function Joined(pages: seq<Page>): seq<Value> {
    if pages == [] then [] else Joined(pages[..|pages| - 1]) + pages[|pages| - 1].records
  }

  lemma JoinedAppend(pages: seq<Page>, page: Page)
    ensures Joined(pages + [page]) == Joined(pages) + page.records
  {
    assert (pages + [page])[..|pages|] == pages;
  }
}
