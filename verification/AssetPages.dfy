/**
 Bounded pages of the ordered Asset query: a binary search over the size of the
 response frame, and the offsets that lead through the whole result.
 */
module AssetPages {
  import opened Wrappers
  import opened CanonicalJson
  import opened Decimals
  import opened CanonicalPages

  const MAX_PAGE_SIZE := 250
  const LENGTH_PREFIX := 4

  datatype AssetPage = AssetPage(offset: nat, limit: nat, total: nat, items: seq<Value>, nextOffset: Option<nat>, revision: nat, facets: Value)

  function OptNumber(n: Option<nat>): Value { if n.Some? then Value.Number(Decimal(n.value)) else Null }

  const ASSET_PAGE_FIELDS := ["offset", "limit", "total", "items", "nextOffset", "libraryRevision", "facets"]

  function AssetPageFields(p: AssetPage): (values: seq<Value>)
    ensures |values| == 7
  {
    [Value.Number(Decimal(p.offset)), Value.Number(Decimal(p.limit)), Value.Number(Decimal(p.total)), Array(p.items),
     OptNumber(p.nextOffset), Value.Number(Decimal(p.revision)), p.facets]
  }

  function AssetPageValue(p: AssetPage): Value { Object(Names(ASSET_PAGE_FIELDS), AssetPageFields(p)) }

  function AssetResult(page: Value): Value {
    Object(Names(["result", "value"]), [String(Ascii("asset_page")), page])
  }

  // The response frame under the longest request id, with its length prefix.
  function FrameSize(p: AssetPage): nat {
    |Compact(FrameValue(AssetResult(AssetPageValue(p))))| + LENGTH_PREFIX
  }

  function NextNumber(end: nat, total: nat): Option<nat> { if end < total then Some(end) else None }

  // The page with the first `count` of the rows.
  function First(p: AssetPage, count: nat): AssetPage
    requires count <= |p.items|
  {
    p.(items := p.items[..count], nextOffset := NextNumber(p.offset + count, p.total))
  }

  ghost predicate Fits(p: AssetPage, count: nat)
    requires count <= |p.items|
  {
    FrameSize(First(p, count)) <= MAX_FRAME_BYTES
  }

  /** One more item never makes the frame smaller. */

  lemma SizeDifference(a: AssetPage, b: AssetPage)
    requires b == a.(items := b.items, nextOffset := b.nextOffset)
    ensures FrameSize(a) + |Compact(Array(b.items))| + |Compact(OptNumber(b.nextOffset))|
         == FrameSize(b) + |Compact(Array(a.items))| + |Compact(OptNumber(a.nextOffset))|
  {
    hide Compact;
    var keys, fa, fb := Names(ASSET_PAGE_FIELDS), AssetPageFields(a), AssetPageFields(b);
    ReplaceInObject(keys, fa, 3, Array(b.items));
    ReplaceInObject(keys, fa[3 := Array(b.items)], 4, OptNumber(b.nextOffset));
    assert fa[3 := Array(b.items)][4 := OptNumber(b.nextOffset)] == fb;
    FrameAround(AssetPageValue(a), AssetPageValue(b));
  }

  lemma FrameAround(a: Value, b: Value)
    ensures |Compact(FrameValue(AssetResult(a)))| + |Compact(b)| == |Compact(FrameValue(AssetResult(b)))| + |Compact(a)|
  {
    hide Compact;
    var ra, rb := AssetResult(a), AssetResult(b);
    ReplaceInObject(ra.keys, ra.values, 1, b);
    assert ra.values[1 := b] == rb.values;
    var fa, fb := FrameValue(ra), FrameValue(rb);
    ReplaceInObject(fa.keys, fa.values, 3, rb);
    assert fa.values[3 := rb] == fb.values;
  }

  // An Asset summary is an object that starts with its asset id and location id.
  ghost predicate Summary(v: Value) {
    && v.Object? && |v.keys| == |v.values| >= 2
    && v.keys[0] == Ascii("assetId") && v.keys[1] == Ascii("locationId")
  }

  lemma SummaryHeavy(v: Value)
    requires Summary(v)
    ensures |Compact(v)| >= 20
  {
    var k0, k1, rest := v.keys[0], v.keys[1], CompactMembers(v.keys[1..], v.values[1..]);
    EscapeGrows(k0);
    EscapeGrows(k1);
    assert |"assetId"| == 7 && |"locationId"| == 10;
    assert v.keys[1..][0] == k1;
    hide Escape, Ascii;
    assert |rest| >= |Quoted(k1)|;
    assert |CompactMembers(v.keys, v.values)| >= |Quoted(k0)| + |rest|;
  }

  ghost predicate Rows(p: AssetPage) {
    && p.total < U64 && (p.items != [] ==> p.offset + |p.items| <= p.total)
    && forall v <- p.items :: Summary(v)
  }

  lemma NumberSize(n: nat)
    requires n < U64
    ensures |Compact(Value.Number(Decimal(n)))| <= 20
  {
    TwentyDigits();
    DecimalShort(n, 20, Tens(20));
  }

  lemma FitsStep(p: AssetPage, count: nat)
    requires Rows(p) && count < |p.items| && Fits(p, count + 1)
    ensures Fits(p, count)
  {
    hide Compact, Summary, FrameSize;
    var a, b := First(p, count), First(p, count + 1);
    SizeDifference(a, b);
    ContentIsSize(a.items);
    ContentIsSize(b.items);
    assert b.items[..count] == a.items && b.items[count] == p.items[count] && p.items[count] in p.items;
    SummaryHeavy(p.items[count]);
    NextSizes(p.offset + count, p.total);
    ArraySize(a.items);
    ArraySize(b.items);
  }

  lemma ArraySize(items: seq<Value>)
    ensures |Compact(Array(items))| == |CompactItems(items)| + 2
  {
  }

  lemma NextSizes(end: nat, total: nat)
    requires end < total < U64
    ensures |Compact(OptNumber(NextNumber(end, total)))| <= |Compact(OptNumber(NextNumber(end + 1, total)))| + 16
  {
    NumberSize(end);
    DecimalGrows(end, end + 1);
  }

  // Fitting is monotone in the number of items.
  lemma {:induction false} FitsFewer(p: AssetPage, few: nat, many: nat)
    requires Rows(p) && few <= many <= |p.items| && Fits(p, many)
    ensures Fits(p, few)
    decreases many
  {
    if few < many {
      FitsStep(p, many - 1);
      FitsFewer(p, few, many - 1);
    }
  }

  /** The search. */

  datatype QueryError =
    | PageTooLarge | OffsetOutside | FilterGone | SnapshotChanged(expected: nat, actual: nat) | ResultTooLarge

  // The longest prefix of the rows whose frame fits; refused only when not even
  // one row does (or, with no rows, the empty page does not).
  method ByteBound(p: AssetPage) returns (r: Result<AssetPage, QueryError>)
    requires Rows(p)
    ensures r.Err? <==> !Fits(p, Min(1, |p.items|))
    ensures r.Err? ==> r.error == ResultTooLarge
    ensures r.Ok? ==>
      && |r.value.items| <= |p.items| && r.value == First(p, |r.value.items|)
      && forall count | 0 <= count <= |p.items| :: Fits(p, count) <==> count <= |r.value.items|
  {
    hide FrameSize, Rows;
    var selected := |p.items|;
    if FrameSize(First(p, |p.items|)) > MAX_FRAME_BYTES {
      if p.items == [] || FrameSize(First(p, 1)) > MAX_FRAME_BYTES {
        return Err(ResultTooLarge);
      }
      var low, high := 1, |p.items|;
      while low < high
        invariant 1 <= low <= high <= |p.items|
        invariant Fits(p, low) && (high < |p.items| ==> !Fits(p, high + 1)) && !Fits(p, |p.items|)
      {
        var middle := low + (high - low + 1) / 2;
        if FrameSize(First(p, middle)) <= MAX_FRAME_BYTES {
          low := middle;
        } else {
          high := middle - 1;
        }
      }
      selected := low;
    }
    Selected(p, selected);
    return Ok(First(p, selected));
  }

  lemma Selected(p: AssetPage, selected: nat)
    requires Rows(p) && selected <= |p.items| && Fits(p, selected) && (selected < |p.items| ==> !Fits(p, selected + 1))
    ensures forall count | 0 <= count <= |p.items| :: Fits(p, count) <==> count <= selected
    ensures Fits(p, Min(1, |p.items|)) || selected == 0
  {
    forall count | 0 <= count <= |p.items| ensures Fits(p, count) <==> count <= selected {
      if count <= selected { FitsFewer(p, count, selected); }
      if selected < count && Fits(p, count) { FitsFewer(p, selected + 1, count); }
    }
  }

  /** Queries over one ordered result. */

  // What the query sees in one read transaction: the ordered result, the facets
  // (for the first page) and the revision.
  datatype View = View(ordered: seq<Value>, facets: Value, noFacets: Value, revision: nat)

  ghost predicate Queryable(v: View) { |v.ordered| < U64 && forall x <- v.ordered :: Summary(x) }

  function Window(v: View, offset: nat, limit: nat): seq<Value> {
    if offset >= |v.ordered| then [] else v.ordered[offset..Min(offset + limit, |v.ordered|)]
  }

  function Unbounded(v: View, offset: nat, limit: nat): AssetPage {
    AssetPage(offset, limit, |v.ordered|, Window(v, offset, limit), None, v.revision, if offset == 0 then v.facets else v.noFacets)
  }

  lemma WindowPrefix(v: View, offset: nat, limit: nat, n: nat)
    requires offset < |v.ordered| && n <= |Window(v, offset, limit)|
    ensures offset + n <= |v.ordered| && Window(v, offset, limit)[..n] == v.ordered[offset..offset + n]
  {
  }

  const I64_MAX := 0x7fff_ffff_ffff_ffff

  // The revision moved since the caller's snapshot.
  predicate Moved(v: View, expected: Option<nat>) { expected.Some? && expected.value != v.revision }

  method QueryAssets(v: View, offset: nat, limit: nat, expected: Option<nat>) returns (r: Result<AssetPage, QueryError>)
    requires Queryable(v)
    ensures r == Err(PageTooLarge) <==> limit == 0 || limit > 250
    ensures r == Err(OffsetOutside) <==> 0 < limit <= 250 && offset > I64_MAX
    ensures r.Err? && r.error.SnapshotChanged? <==> 0 < limit <= 250 && offset <= I64_MAX && Moved(v, expected)
    ensures r == Err(ResultTooLarge) <==>
      && 0 < limit <= 250 && offset <= I64_MAX && !Moved(v, expected)
      && !Fits(Unbounded(v, offset, limit), Min(1, |Window(v, offset, limit)|))
    ensures r.Err? ==> r.error != FilterGone
    ensures r.Err? && r.error.SnapshotChanged? ==>
      expected == Some(r.error.expected) && r.error.actual == v.revision && r.error.expected != v.revision
    ensures r.Ok? ==>
      && |r.value.items| <= |Window(v, offset, limit)| && r.value == First(Unbounded(v, offset, limit), |r.value.items|)
    ensures r.Ok? ==>
      var p, n := r.value, |r.value.items|;
      && (expected.Some? ==> expected.value == v.revision)
      && p.offset == offset && p.limit == limit && p.total == |v.ordered| && p.revision == v.revision && n <= limit
      && p.facets == (if offset == 0 then v.facets else v.noFacets)
      && p.nextOffset == (if offset + n < |v.ordered| then Some(offset + n) else None)
      && (if offset < |v.ordered| then 0 < n <= |v.ordered| - offset && p.items == v.ordered[offset..offset + n] else n == 0)
      && forall count | 0 <= count <= |Window(v, offset, limit)| :: Fits(Unbounded(v, offset, limit), count) <==> count <= n
  {
    hide FrameSize;
    if limit == 0 || limit > MAX_PAGE_SIZE {
      return Err(PageTooLarge);
    }
    if offset > I64_MAX {
      return Err(OffsetOutside);
    }
    if expected.Some? && expected.value != v.revision {
      return Err(SnapshotChanged(expected.value, v.revision));
    }
    var p := Unbounded(v, offset, limit);
    r := ByteBound(p);
    if r.Ok? && offset < |v.ordered| {
      WindowPrefix(v, offset, limit, |r.value.items|);
      assert Fits(p, 1);
    }
  }

  // The Root or Collection that the query filters by is looked up after the limit
  // and the offset were checked and before the revision is.
  method QueryFiltered(seen: Option<View>, offset: nat, limit: nat, expected: Option<nat>) returns (r: Result<AssetPage, QueryError>)
    requires seen.Some? ==> Queryable(seen.value)
    ensures r == Err(PageTooLarge) <==> limit == 0 || limit > 250
    ensures r == Err(OffsetOutside) <==> 0 < limit <= 250 && offset > I64_MAX
    ensures r == Err(FilterGone) <==> 0 < limit <= 250 && offset <= I64_MAX && seen.None?
    ensures r.Err? && r.error.SnapshotChanged? <==>
      0 < limit <= MAX_PAGE_SIZE && offset <= I64_MAX && seen.Some? && Moved(seen.value, expected)
    ensures r.Ok? ==>
      && seen.Some? && |r.value.items| <= |Window(seen.value, offset, limit)|
      && r.value == First(Unbounded(seen.value, offset, limit), |r.value.items|)
      && (offset < |seen.value.ordered| ==> 0 < |r.value.items|)
  {
    hide FrameSize, Fits;
    if limit == 0 || limit > MAX_PAGE_SIZE {
      return Err(PageTooLarge);
    }
    if offset > I64_MAX {
      return Err(OffsetOutside);
    }
    if seen.None? {
      return Err(FilterGone);
    }
    r := QueryAssets(seen.value, offset, limit, expected);
  }

  // Following next offsets at one revision yields the whole ordered result, page
  // by page without gaps or repeats, or stops at a row too large for a frame.
  method QueryAll(v: View, limit: nat) returns (all: seq<Value>, pages: nat, error: Option<QueryError>)
    requires Queryable(v) && 0 < limit <= MAX_PAGE_SIZE && |v.ordered| <= I64_MAX
    ensures error.None? ==> all == v.ordered && pages <= |v.ordered| + 1
    ensures |all| <= |v.ordered|
    ensures error.Some? ==>
      && error == Some(ResultTooLarge) && all == v.ordered[..|all|]
      && !Fits(Unbounded(v, |all|, limit), Min(1, |Window(v, |all|, limit)|))
  {
    hide Fits, Queryable;
    all, pages, error := [], 0, None;
    var offset := 0;
    while true
      invariant offset == |all| <= |v.ordered| && all == v.ordered[..offset] && pages <= offset
      invariant offset > 0 ==> offset < |v.ordered|
      decreases |v.ordered| - offset
    {
      var r := QueryAssets(v, offset, limit, Some(v.revision));
      if r.Err? {
        assert r.error != PageTooLarge && r.error != OffsetOutside && !r.error.SnapshotChanged?;
        return all, pages, Some(r.error);
      }
      var n := |r.value.items|;
      assert v.ordered[..offset] + v.ordered[offset..offset + n] == v.ordered[..offset + n];
      all := all + r.value.items;
      pages := pages + 1;
      offset := offset + n;
      if r.value.nextOffset.None? {
        return;
      }
    }
  }
}
