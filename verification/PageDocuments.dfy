/**
 What the frame of a canonical page and of an Asset page says, member by member.
 */
module PageDocuments {
  import opened Wrappers
  import opened CanonicalJson
  import opened Decimals
  import opened CanonicalPages
  import opened AssetPages
  import Records = CanonicalRecords
  import Docs = CanonicalDocuments
  import Reader = JsonReader
  import WireFrames

  // Member names and constants are ASCII texts.
  const ASCII := Records.Encoding([], (k: nat) => [], (s: string) => Ascii(s), (p: seq<nat>) => [])

  ghost function Obj(fields: seq<(string, Json)>): Json { Docs.Obj(ASCII, fields) }

  ghost function A(s: string): Json { JString(Ascii(s)) }

  ghost function N(n: nat): Json { JNumber(Decimal(n)) }

  ghost function Maybe(t: Option<Text>): Json { if t.Some? then JString(t.value) else JNull }

  ghost predicate DifferentNames(names: seq<string>) {
    forall i, j | 0 <= i < j < |names| :: Ascii(names[i]) != Ascii(names[j])
  }

  lemma ObjectSays(fields: seq<(string, Json)>, names: seq<string>, values: seq<Value>)
    requires (forall v <- values :: WellFormed(v)) && Docs.Pairs(fields, names, values) && DifferentNames(names)
    ensures WellFormed(Object(Names(names), values)) && Mean(Object(Names(names), values)) == Obj(fields)
  {
    assert Names(names) == Records.Names(ASCII, names);
    hide Ascii;
    Docs.FieldsMean(ASCII, fields, names, values);
    MeanObject(Names(names), values);
  }

  // Texts of different lengths, or with a different byte somewhere, differ.
  lemma AsciiDiffer(a: string, b: string, i: nat)
    requires |a| != |b| || (i < |a| && a[i] as int % 256 != b[i] as int % 256)
    ensures Ascii(a) != Ascii(b)
  {
    assert |Ascii(a)| == |a| && |Ascii(b)| == |b|;
    if |a| == |b| { assert Ascii(a)[i] != Ascii(b)[i]; }
  }

  lemma NumberFormed(n: nat)
    ensures WellFormed(Value.Number(Decimal(n)))
  {
    DecimalReads(n);
  }

  /** The frame around a result. */

  lemma FrameNames()
    ensures DifferentNames(["kind", "protocolVersion", "requestId", "result"]) && DifferentNames(["result", "value"])
  {
    var n := ["kind", "protocolVersion", "requestId", "result"];
    forall i, j | 0 <= i < j < |n| ensures Ascii(n[i]) != Ascii(n[j]) { AsciiDiffer(n[i], n[j], 0); }
    var m := ["result", "value"];
    AsciiDiffer(m[0], m[1], 0);
  }

  ghost function FrameDoc(tag: string, result: Json): Json {
    Obj([("kind", A("response")), ("protocolVersion", JNumber([49])), ("requestId", JString(seq(MAX_REQUEST_ID_BYTES, i => 114))),
         ("result", Obj([("result", A(tag)), ("value", result)]))])
  }

  lemma FrameSays(tag: string, page: Value)
    requires WellFormed(page)
    ensures var v := FrameValue(Object(Names(["result", "value"]), [String(Ascii(tag)), page]));
      WellFormed(v) && Mean(v) == FrameDoc(tag, Mean(page))
  {
    hide Ascii, Docs.Fields;
    FrameNames();
    ObjectSays([("result", A(tag)), ("value", Mean(page))], ["result", "value"], [String(Ascii(tag)), page]);
    var inner := Object(Names(["result", "value"]), [String(Ascii(tag)), page]);
    var id := seq(MAX_REQUEST_ID_BYTES, i => 114);
    hide Obj, Names;
    ObjectSays([("kind", A("response")), ("protocolVersion", JNumber([49])), ("requestId", JString(id)), ("result", Mean(inner))],
               ["kind", "protocolVersion", "requestId", "result"],
               [String(Ascii("response")), Value.Number([49]), String(id), inner]);
  }

  /** A canonical page. */

  lemma PageNames()
    ensures DifferentNames(PAGE_FIELDS)
  {
    var n := PAGE_FIELDS;
    forall i, j | 0 <= i < j < |n| ensures Ascii(n[i]) != Ascii(n[j]) {
      assert |n[0]| == 6 && |n[1]| == 14 && |n[2]| == 6 && |n[3]| == 6 && |n[4]| == 5 && |n[5]| == 5 && |n[6]| == 7 && |n[7]| == 10;
      AsciiDiffer(n[i], n[j], 0);
    }
  }

  ghost function PageDoc(req: Request, total: nat, page: Page): Json
    requires forall v <- page.records :: WellFormed(v)
  {
    Obj([("format", A("pitchdog-reference-canonical-projection-v1")), ("snapshotDigest", JString(req.digest)),
         ("entity", JString(req.entity)), ("cursor", Maybe(req.cursor)), ("limit", N(req.limit)), ("total", N(total)),
         ("records", JArray(Reader.Means(page.records))), ("nextCursor", Maybe(page.next))])
  }

  lemma RecordsMean(records: seq<Value>)
    requires forall v <- records :: WellFormed(v)
    ensures WellFormed(Array(records)) && Mean(Array(records)) == JArray(Reader.Means(records))
  {
    assert Mean(Array(records)).items == Reader.Means(records);
  }

  lemma PageSays(req: Request, total: nat, page: Page)
    requires forall v <- page.records :: WellFormed(v)
    ensures WellFormed(PageValue(req, total, page)) && Mean(PageValue(req, total, page)) == PageDoc(req, total, page)
  {
    hide Ascii, Docs.Fields, Reader.Means;
    PageNames();
    NumberFormed(req.limit);
    NumberFormed(total);
    RecordsMean(page.records);
    var fields := [("format", A("pitchdog-reference-canonical-projection-v1")), ("snapshotDigest", JString(req.digest)),
         ("entity", JString(req.entity)), ("cursor", Maybe(req.cursor)), ("limit", N(req.limit)), ("total", N(total)),
         ("records", JArray(Reader.Means(page.records))), ("nextCursor", Maybe(page.next))];
    ObjectSays(fields, PAGE_FIELDS, PageFields(req, total, page));
  }

  // The bytes whose number is bounded read back as the response with this page.
  lemma PageReads(req: Request, total: nat, page: Page)
    requires forall v <- page.records :: WellFormed(v)
    ensures var bytes := Compact(FrameValue(ResultValue(PageValue(req, total, page))));
      && PageSize(req, total, page) == |bytes|
      && Reader.Read(bytes) == Some((FrameDoc("canonical_page", PageDoc(req, total, page)), []))
  {
    hide Ascii, Obj, PageDoc, PageValue, Reader.Read, Compact, FrameValue;
    PageSays(req, total, page);
    FrameSays("canonical_page", PageValue(req, total, page));
    var v := FrameValue(ResultValue(PageValue(req, total, page)));
    Reader.CompactReads(v, []);
    assert Compact(v) + [] == Compact(v);
  }

  /** An Asset page. */

  lemma AssetPageNames()
    ensures DifferentNames(ASSET_PAGE_FIELDS)
  {
    var n := ASSET_PAGE_FIELDS;
    forall i, j | 0 <= i < j < |n| ensures Ascii(n[i]) != Ascii(n[j]) {
      assert |n[0]| == 6 && |n[1]| == 5 && |n[2]| == 5 && |n[3]| == 5 && |n[4]| == 10 && |n[5]| == 15 && |n[6]| == 6;
      AsciiDiffer(n[i], n[j], 0);
    }
  }

  ghost function AssetPageDoc(p: AssetPage): Json
    requires WellFormed(p.facets) && forall v <- p.items :: WellFormed(v)
  {
    Obj([("offset", N(p.offset)), ("limit", N(p.limit)), ("total", N(p.total)), ("items", JArray(Reader.Means(p.items))),
         ("nextOffset", if p.nextOffset.Some? then N(p.nextOffset.value) else JNull), ("libraryRevision", N(p.revision)),
         ("facets", Mean(p.facets))])
  }

  lemma AssetPageSays(p: AssetPage)
    requires WellFormed(p.facets) && forall v <- p.items :: WellFormed(v)
    ensures WellFormed(AssetPageValue(p)) && Mean(AssetPageValue(p)) == AssetPageDoc(p)
  {
    hide Ascii, Docs.Fields, Reader.Means;
    AssetPageNames();
    NumberFormed(p.offset);
    NumberFormed(p.limit);
    NumberFormed(p.total);
    NumberFormed(p.revision);
    if p.nextOffset.Some? { NumberFormed(p.nextOffset.value); }
    RecordsMean(p.items);
    var fields := [("offset", N(p.offset)), ("limit", N(p.limit)), ("total", N(p.total)), ("items", JArray(Reader.Means(p.items))),
         ("nextOffset", if p.nextOffset.Some? then N(p.nextOffset.value) else JNull), ("libraryRevision", N(p.revision)),
         ("facets", Mean(p.facets))];
    ObjectSays(fields, ASSET_PAGE_FIELDS, AssetPageFields(p));
  }

  lemma AssetPageReads(p: AssetPage)
    requires WellFormed(p.facets) && forall v <- p.items :: WellFormed(v)
    ensures var bytes := Compact(FrameValue(AssetResult(AssetPageValue(p))));
      && FrameSize(p) == |WireFrames.Encode(bytes)|
      && Reader.Read(bytes) == Some((FrameDoc("asset_page", AssetPageDoc(p)), []))
  {
    hide Ascii, Obj, AssetPageDoc, AssetPageValue, Reader.Read, Compact, FrameValue;
    AssetPageSays(p);
    FrameSays("asset_page", AssetPageValue(p));
    var v := FrameValue(AssetResult(AssetPageValue(p)));
    Reader.CompactReads(v, []);
    assert Compact(v) + [] == Compact(v);
  }
}
