/**
 What the canonical document of every row says, member by member, and that the
 nine sections hold exactly the documents of the rows.
 */
module CanonicalDocuments {
  import opened Wrappers
  import opened Tables
  import opened Projection
  import opened CanonicalJson
  import opened CanonicalStream
  import opened CanonicalRecords
  import opened Decimals
  import Pages = CanonicalPages
  import Reader = JsonReader

  /** The documents, as they are to be read. */

  // An object with these members.
  ghost function Fields(e: Encoding, fields: seq<(string, Json)>): map<Text, Json> {
    if fields == [] then map[] else Fields(e, fields[1..])[e.utf8(fields[0].0) := fields[0].1]
  }

  ghost function Obj(e: Encoding, fields: seq<(string, Json)>): Json { JObject(Fields(e, fields)) }

  ghost function Doc(e: Encoding, tag: string, fields: seq<(string, Json)>): Json {
    Obj(e, [("recordType", S(e, tag)), ("record", Obj(e, fields))])
  }

  ghost function S(e: Encoding, s: string): Json { JString(e.utf8(s)) }

  ghost function I(e: Encoding, id: Id): Json { JString(e.id(id)) }

  ghost function N(n: nat): Json { JNumber(Decimal(n)) }

  ghost function Maybe(e: Encoding, s: Option<string>): Json { if s.Some? then S(e, s.value) else JNull }

  ghost function List(e: Encoding, ss: seq<string>): Json { JArray(seq(|ss|, i requires 0 <= i < |ss| => S(e, ss[i]))) }

  ghost function LibraryDoc(e: Encoding, name: string): Json {
    Doc(e, "library", [("id", JString(e.library)), ("name", S(e, name))])
  }

  ghost function RootDoc(e: Encoding, k: Id, r: Root): Json {
    Doc(e, "root", [("id", I(e, k)), ("displayName", S(e, r.display)), ("rootKind", S(e, if r.linked then "linked" else "embedded"))])
  }

  ghost function SourceDoc(e: Encoding, k: Id, s: Source): Json {
    Doc(e, "source", [("id", I(e, k)), ("mediaFamily", S(e, s.family)), ("currentRevisionId", I(e, s.current))])
  }

  ghost function RevisionDoc(e: Encoding, k: Id, r: Revision): Json {
    Doc(e, "source_revision", [
      ("id", I(e, k)), ("sourceId", I(e, r.source)), ("byteSize", N(r.size)), ("quickFingerprint", Maybe(e, r.fingerprint)),
      ("mimeDetected", S(e, r.media.mime)), ("extensionObserved", Maybe(e, r.media.extension)), ("mediaMetadata", MediaDoc(e, r.media))])
  }

  ghost function MediaDoc(e: Encoding, m: Media): Json {
    Obj(e, [("gridPreview", JBool(m.grid)), ("pixelHeight", N(m.height)), ("pixelWidth", N(m.width)), ("previewKind", S(e, m.preview))])
  }

  ghost function LocationDoc(e: Encoding, k: Id, l: Location): Json {
    Doc(e, "location", [
      ("id", I(e, k)), ("rootId", I(e, l.root)), ("sourceId", I(e, l.source)),
      ("relativePathBytesHex", JString(e.path(l.path))), ("relativePathDisplay", S(e, l.display))])
  }

  ghost function OriginDoc(e: Encoding, k: Id, o: Origin): Json {
    Doc(e, "asset_origin", [
      ("id", I(e, k)), ("assetId", I(e, o.asset)), ("sourceId", I(e, o.source)), ("originKind", S(e, "whole")),
      ("originSpec", Obj(e, [("kind", S(e, "whole"))])), ("revisionBinding", S(e, "latest"))])
  }

  ghost function AssetDoc(e: Encoding, k: Id, a: Asset): Json {
    Doc(e, "asset", [
      ("id", I(e, k)), ("customTitle", Maybe(e, a.title)),
      ("reviewState", S(e, match a.review case Unreviewed => "unreviewed" case Keep => "keep" case Maybe => "maybe" case Reject => "reject")),
      ("note", Maybe(e, a.note)), ("tags", List(e, a.tags)), ("usedIn", List(e, a.usedIn))])
  }

  ghost function CollectionDoc(e: Encoding, k: Id, c: Collection): Json {
    Doc(e, "collection", [("id", I(e, k)), ("name", S(e, c.name))])
  }

  ghost function MembershipDoc(e: Encoding, m: (Id, Id)): Json {
    Doc(e, "collection_membership", [("collectionId", I(e, m.0)), ("assetId", I(e, m.1))])
  }

  /** Objects are read by their members. */

  ghost predicate Pairs(fields: seq<(string, Json)>, names: seq<string>, values: seq<Value>)
    requires forall v <- values :: WellFormed(v)
  {
    |fields| == |names| == |values| && forall i | 0 <= i < |fields| :: fields[i].0 == names[i] && fields[i].1 == Mean(values[i])
  }

  lemma {:induction false} FieldsMean(e: Encoding, fields: seq<(string, Json)>, names: seq<string>, values: seq<Value>)
    requires (forall v <- values :: WellFormed(v)) && Pairs(fields, names, values) && Distinct(Names(e, names))
    ensures MeanMembers(Names(e, names), values) == Fields(e, fields)
    decreases |fields|
  {
    hide Mean, MeanMembers;
    if fields == [] {
      NoFields(e, names, values);
    } else {
      assert Names(e, names)[1..] == Names(e, names[1..]);
      Reader.MeanMembersFirst(Names(e, names), values);
      FieldsMean(e, fields[1..], names[1..], values[1..]);
    }
  }

  lemma NoFields(e: Encoding, names: seq<string>, values: seq<Value>)
    requires |names| == |values| == 0
    ensures MeanMembers(Names(e, names), values) == map[]
  {
  }

  lemma ObjectMeans(e: Encoding, fields: seq<(string, Json)>, names: seq<string>, values: seq<Value>)
    requires (forall v <- values :: WellFormed(v)) && Pairs(fields, names, values)
    requires Faithful(e) && DifferentNames(names)
    ensures WellFormed(Object(Names(e, names), values)) && Mean(Object(Names(e, names), values)) == Obj(e, fields)
  {
    NamesDistinct(e, names);
    hide Faithful;
    FieldsMean(e, fields, names, values);
    MeanObject(Names(e, names), values);
  }

  // A record's document, given what its fields mean.
  lemma RecordMeans(e: Encoding, r: Record, fields: seq<(string, Json)>)
    requires Faithful(e) && (forall v <- FieldValues(e, r) :: WellFormed(v))
    requires Pairs(fields, FieldNames(EntityOf(r)), FieldValues(e, r))
    ensures WellFormed(ToValue(e, r)) && Mean(ToValue(e, r)) == Doc(e, Tag(EntityOf(r)), fields)
  {
    hide FieldValues, FieldNames, Tag, Fields, Names, Faithful;
    FieldNamesDiffer(EntityOf(r));
    ObjectMeans(e, fields, FieldNames(EntityOf(r)), FieldValues(e, r));
    OuterNamesDiffer();
    var outer := [("recordType", S(e, Tag(EntityOf(r)))), ("record", Obj(e, fields))];
    var values := [Str(e, Tag(EntityOf(r))), Object(Names(e, FieldNames(EntityOf(r))), FieldValues(e, r))];
    ObjectMeans(e, outer, RECORD_NAMES, values);
  }

  /** Every kind of row. */

  lemma LibrarySays(e: Encoding, name: string)
    requires Faithful(e)
    ensures var v := ToValue(e, LibraryRecord(name)); WellFormed(v) && Mean(v) == LibraryDoc(e, name)
  {
    hide Fields;
    FieldsFormed(e, LibraryRecord(name));
    var fields := [("id", JString(e.library)), ("name", S(e, name))];
    RecordMeans(e, LibraryRecord(name), fields);
  }

  lemma RootSays(e: Encoding, k: Id, r: Root)
    requires Faithful(e)
    ensures var v := ToValue(e, RootRecord(k, r.display, r.linked)); WellFormed(v) && Mean(v) == RootDoc(e, k, r)
  {
    hide Fields;
    FieldsFormed(e, RootRecord(k, r.display, r.linked));
    var fields := [("id", I(e, k)), ("displayName", S(e, r.display)), ("rootKind", S(e, if r.linked then "linked" else "embedded"))];
    RecordMeans(e, RootRecord(k, r.display, r.linked), fields);
  }

  lemma SourceSays(e: Encoding, k: Id, s: Source)
    requires Faithful(e)
    ensures var v := ToValue(e, SourceRecord(k, s.family, s.current)); WellFormed(v) && Mean(v) == SourceDoc(e, k, s)
  {
    hide Fields;
    FieldsFormed(e, SourceRecord(k, s.family, s.current));
    var fields := [("id", I(e, k)), ("mediaFamily", S(e, s.family)), ("currentRevisionId", I(e, s.current))];
    RecordMeans(e, SourceRecord(k, s.family, s.current), fields);
  }

  lemma LocationSays(e: Encoding, k: Id, l: Location)
    requires Faithful(e)
    ensures var v := ToValue(e, LocationRecord(k, l.root, l.source, l.path, l.display)); WellFormed(v) && Mean(v) == LocationDoc(e, k, l)
  {
    hide Fields;
    FieldsFormed(e, LocationRecord(k, l.root, l.source, l.path, l.display));
    var fields := [("id", I(e, k)), ("rootId", I(e, l.root)), ("sourceId", I(e, l.source)),
                   ("relativePathBytesHex", JString(e.path(l.path))), ("relativePathDisplay", S(e, l.display))];
    RecordMeans(e, LocationRecord(k, l.root, l.source, l.path, l.display), fields);
  }

  lemma CollectionSays(e: Encoding, k: Id, c: Collection)
    requires Faithful(e)
    ensures var v := ToValue(e, CollectionRecord(k, c.name)); WellFormed(v) && Mean(v) == CollectionDoc(e, k, c)
  {
    hide Fields;
    FieldsFormed(e, CollectionRecord(k, c.name));
    var fields := [("id", I(e, k)), ("name", S(e, c.name))];
    RecordMeans(e, CollectionRecord(k, c.name), fields);
  }

  lemma MembershipSays(e: Encoding, m: (Id, Id))
    requires Faithful(e)
    ensures var v := ToValue(e, MembershipRecord(m.0, m.1)); WellFormed(v) && Mean(v) == MembershipDoc(e, m)
  {
    hide Fields;
    FieldsFormed(e, MembershipRecord(m.0, m.1));
    var fields := [("collectionId", I(e, m.0)), ("assetId", I(e, m.1))];
    RecordMeans(e, MembershipRecord(m.0, m.1), fields);
  }

  lemma ListMeans(e: Encoding, ss: seq<string>)
    ensures WellFormed(Strings(e, ss)) && Mean(Strings(e, ss)) == List(e, ss)
  {
    assert Mean(Strings(e, ss)).items == List(e, ss).items;
  }

  lemma MediaMeans(e: Encoding, m: Media)
    requires Faithful(e)
    ensures WellFormed(Metadata(e, m)) && Mean(Metadata(e, m)) == MediaDoc(e, m)
  {
    hide Fields;
    MetadataFormed(e, m);
    OuterNamesDiffer();
    var fields := [("gridPreview", JBool(m.grid)), ("pixelHeight", N(m.height)), ("pixelWidth", N(m.width)), ("previewKind", S(e, m.preview))];
    ObjectMeans(e, fields, METADATA_NAMES, [Bool(m.grid), Num(m.height), Num(m.width), Str(e, m.preview)]);
  }

  lemma RevisionSays(e: Encoding, k: Id, r: Revision)
    requires Faithful(e)
    ensures var v := ToValue(e, RevisionRecord(k, r.source, r.size, r.fingerprint, r.media)); WellFormed(v) && Mean(v) == RevisionDoc(e, k, r)
  {
    hide Fields, Metadata, MediaDoc;
    var record := RevisionRecord(k, r.source, r.size, r.fingerprint, r.media);
    FieldsFormed(e, record);
    MediaMeans(e, r.media);
    var fields := [
      ("id", I(e, k)), ("sourceId", I(e, r.source)), ("byteSize", N(r.size)), ("quickFingerprint", Maybe(e, r.fingerprint)),
      ("mimeDetected", S(e, r.media.mime)), ("extensionObserved", Maybe(e, r.media.extension)), ("mediaMetadata", MediaDoc(e, r.media))];
    RecordMeans(e, record, fields);
  }

  lemma KindMeans(e: Encoding)
    requires Faithful(e)
    ensures var v := Object([e.utf8("kind")], [Str(e, "whole")]); WellFormed(v) && Mean(v) == Obj(e, [("kind", S(e, "whole"))])
  {
    hide Fields;
    assert Names(e, ["kind"]) == [e.utf8("kind")];
    ObjectMeans(e, [("kind", S(e, "whole"))], ["kind"], [Str(e, "whole")]);
  }

  lemma OriginSays(e: Encoding, k: Id, o: Origin)
    requires Faithful(e)
    ensures var v := ToValue(e, OriginRecord(k, o.asset, o.source)); WellFormed(v) && Mean(v) == OriginDoc(e, k, o)
  {
    hide Fields;
    FieldsFormed(e, OriginRecord(k, o.asset, o.source));
    KindMeans(e);
    hide Obj;
    var fields := [
      ("id", I(e, k)), ("assetId", I(e, o.asset)), ("sourceId", I(e, o.source)), ("originKind", S(e, "whole")),
      ("originSpec", Obj(e, [("kind", S(e, "whole"))])), ("revisionBinding", S(e, "latest"))];
    RecordMeans(e, OriginRecord(k, o.asset, o.source), fields);
  }

  lemma AssetSays(e: Encoding, k: Id, a: Asset)
    requires Faithful(e)
    ensures var v := ToValue(e, AssetRecord(k, a.title, a.review, a.note, a.tags, a.usedIn)); WellFormed(v) && Mean(v) == AssetDoc(e, k, a)
  {
    hide Fields, Strings, List;
    var record := AssetRecord(k, a.title, a.review, a.note, a.tags, a.usedIn);
    FieldsFormed(e, record);
    ListMeans(e, a.tags);
    ListMeans(e, a.usedIn);
    var fields := [
      ("id", I(e, k)), ("customTitle", Maybe(e, a.title)),
      ("reviewState", S(e, match a.review case Unreviewed => "unreviewed" case Keep => "keep" case Maybe => "maybe" case Reject => "reject")),
      ("note", Maybe(e, a.note)), ("tags", List(e, a.tags)), ("usedIn", List(e, a.usedIn))];
    RecordMeans(e, record, fields);
  }

  /** The nine sections. */

  const SECTION_NAMES := ["library", "roots", "sources", "source_revisions", "locations", "asset_origins", "assets", "collections",
                          "collection_memberships"]

  // The documents of the rows of one table.
  ghost function Docs(e: Encoding, t: Tables, i: nat): set<Json>
    requires i < |SECTION_NAMES|
  {
    if i == 0 then {LibraryDoc(e, t.library)}
    else if i == 1 then set k | k in t.roots :: RootDoc(e, k, t.roots[k])
    else if i == 2 then set k | k in t.sources :: SourceDoc(e, k, t.sources[k])
    else if i == 3 then set k | k in t.revisions :: RevisionDoc(e, k, t.revisions[k])
    else if i == 4 then set k | k in t.locations :: LocationDoc(e, k, t.locations[k])
    else if i == 5 then set k | k in t.origins :: OriginDoc(e, k, t.origins[k])
    else if i == 6 then set k | k in t.assets :: AssetDoc(e, k, t.assets[k])
    else if i == 7 then set k | k in t.collections :: CollectionDoc(e, k, t.collections[k])
    else set m | m in t.members :: MembershipDoc(e, m)
  }

  // A record of the table has the document of its row.
  lemma RecordDoc(e: Encoding, t: Tables, i: nat, r: Record)
    requires Faithful(e) && i < |SECTION_NAMES| && r in Records(t, ENTITIES[i])
    ensures WellFormed(ToValue(e, r)) && Mean(ToValue(e, r)) in Docs(e, t, i)
  {
    hide ToValue, Doc, Mean, WellFormed, Faithful, LibraryDoc, RootDoc, SourceDoc, RevisionDoc, LocationDoc, OriginDoc, AssetDoc, CollectionDoc,
         MembershipDoc;
    match ENTITIES[i]
    case LibraryEntity => LibrarySays(e, t.library);
    case Roots => RootSays(e, r.id, t.roots[r.id]);
    case Sources => SourceSays(e, r.id, t.sources[r.id]);
    case SourceRevisions => RevisionSays(e, r.id, t.revisions[r.id]);
    case Locations => LocationSays(e, r.id, t.locations[r.id]);
    case AssetOrigins => OriginSays(e, r.id, t.origins[r.id]);
    case Assets => AssetSays(e, r.id, t.assets[r.id]);
    case Collections => CollectionSays(e, r.id, t.collections[r.id]);
    case CollectionMemberships => MembershipSays(e, (r.collection, r.asset));
  }

  // And every row has its record.
  lemma DocRecord(e: Encoding, t: Tables, i: nat, d: Json) returns (r: Record)
    requires Faithful(e) && i < |SECTION_NAMES| && d in Docs(e, t, i)
    ensures r in Records(t, ENTITIES[i]) && WellFormed(ToValue(e, r)) && Mean(ToValue(e, r)) == d
  {
    hide ToValue, Doc, Mean, WellFormed, Faithful, LibraryDoc, RootDoc, SourceDoc, RevisionDoc, LocationDoc, OriginDoc, AssetDoc, CollectionDoc,
         MembershipDoc;
    match ENTITIES[i]
    case LibraryEntity =>
      LibrarySays(e, t.library);
      r := LibraryRecord(t.library);
    case Roots =>
      var k :| k in t.roots && d == RootDoc(e, k, t.roots[k]);
      RootSays(e, k, t.roots[k]);
      r := RootRecord(k, t.roots[k].display, t.roots[k].linked);
    case Sources =>
      var k :| k in t.sources && d == SourceDoc(e, k, t.sources[k]);
      SourceSays(e, k, t.sources[k]);
      r := SourceRecord(k, t.sources[k].family, t.sources[k].current);
    case SourceRevisions =>
      var k :| k in t.revisions && d == RevisionDoc(e, k, t.revisions[k]);
      var v := t.revisions[k];
      RevisionSays(e, k, v);
      r := RevisionRecord(k, v.source, v.size, v.fingerprint, v.media);
    case Locations =>
      var k :| k in t.locations && d == LocationDoc(e, k, t.locations[k]);
      var l := t.locations[k];
      LocationSays(e, k, l);
      r := LocationRecord(k, l.root, l.source, l.path, l.display);
    case AssetOrigins =>
      var k :| k in t.origins && d == OriginDoc(e, k, t.origins[k]);
      OriginSays(e, k, t.origins[k]);
      r := OriginRecord(k, t.origins[k].asset, t.origins[k].source);
    case Assets =>
      var k :| k in t.assets && d == AssetDoc(e, k, t.assets[k]);
      var a := t.assets[k];
      AssetSays(e, k, a);
      r := AssetRecord(k, a.title, a.review, a.note, a.tags, a.usedIn);
    case Collections =>
      var k :| k in t.collections && d == CollectionDoc(e, k, t.collections[k]);
      CollectionSays(e, k, t.collections[k]);
      r := CollectionRecord(k, t.collections[k].name);
    case CollectionMemberships =>
      var m :| m in t.members && d == MembershipDoc(e, m);
      MembershipSays(e, m);
      r := MembershipRecord(m.0, m.1);
  }

  // Each section has its name, and a printed record is the document of a row;
  // every row is there.
  lemma SectionSays(e: Encoding, t: Tables, i: nat)
    requires Faithful(e) && i < |SECTION_NAMES|
    ensures i < |Sections(e, t)| && Sections(e, t)[i].name == e.utf8(SECTION_NAMES[i])
    ensures forall v <- Sections(e, t)[i].records :: WellFormed(v) && Mean(v) in Docs(e, t, i)
    ensures forall d <- Docs(e, t, i) :: exists v :: v in Sections(e, t)[i].records && WellFormed(v) && Mean(v) == d
  {
    hide Docs, Records, ToValue, Mean, WellFormed, Faithful, Listing;
    assert i < |Sections(e, t)|;
    var list := Listing(e, Records(t, ENTITIES[i]));
    var records := Sections(e, t)[i].records;
    assert records == Documents(e, list);
    RecordsKeyed(e, t, ENTITIES[i]);
    forall v <- records ensures WellFormed(v) && Mean(v) in Docs(e, t, i) {
      var n :| 0 <= n < |list| && v == ToValue(e, list[n]);
      ListingHolds(e, Records(t, ENTITIES[i]), list[n]);
      RecordDoc(e, t, i, list[n]);
    }
    forall d <- Docs(e, t, i) ensures exists v :: v in records && WellFormed(v) && Mean(v) == d {
      var r := DocRecord(e, t, i, d);
      ListingHolds(e, Records(t, ENTITIES[i]), r);
      var n :| 0 <= n < |list| && list[n] == r;
      assert records[n] == ToValue(e, r);
    }
  }

  /** In which order the rows stand. */

  ghost function Member(e: Encoding, d: Json, name: string): Json {
    if d.JObject? && e.utf8(name) in d.members then d.members[e.utf8(name)] else JNull
  }

  // The text that a document's record has under this name.
  ghost function TextOf(e: Encoding, d: Json, name: string): Text {
    match Member(e, Member(e, d, "record"), name)
    case JString(text) => text
    case _ => []
  }

  lemma DocRecordMember(e: Encoding, tag: string, fields: seq<(string, Json)>)
    requires Faithful(e)
    ensures Member(e, Doc(e, tag, fields), "record") == Obj(e, fields)
  {
    hide Fields;
    var inner := Obj(e, fields);
    OuterNamesDiffer();
    TwoFields(e, ("recordType", S(e, tag)), ("record", inner));
    assert "recordType" != "record" by { assert |"recordType"| == 10 && |"record"| == 6; }
  }

  lemma TwoFields(e: Encoding, x: (string, Json), y: (string, Json))
    ensures Fields(e, [x, y]) == map[e.utf8(y.0) := y.1][e.utf8(x.0) := x.1]
  {
    assert [x, y][1..] == [y] && [y][1..] == [];
    assert Fields(e, [y]) == Fields(e, [])[e.utf8(y.0) := y.1];
  }

  // A record that starts with its id.
  lemma IdTexts(e: Encoding)
    requires Faithful(e)
    ensures forall tag: string, fields: seq<(string, Json)> {:trigger Doc(e, tag, fields)} |
              fields != [] && fields[0].0 == "id" && fields[0].1.JString? ::
              TextOf(e, Doc(e, tag, fields), "id") == fields[0].1.text
  {
    hide Doc, Faithful;
    forall tag: string, fields: seq<(string, Json)> | fields != [] && fields[0].0 == "id" && fields[0].1.JString?
      ensures TextOf(e, Doc(e, tag, fields), "id") == fields[0].1.text
    {
      DocRecordMember(e, tag, fields);
    }
  }

  lemma PairTexts(e: Encoding, m: (Id, Id))
    requires Faithful(e)
    ensures TextOf(e, MembershipDoc(e, m), "collectionId") == e.id(m.0) && TextOf(e, MembershipDoc(e, m), "assetId") == e.id(m.1)
  {
    hide Doc, Fields;
    var fields := [("collectionId", I(e, m.0)), ("assetId", I(e, m.1))];
    DocRecordMember(e, "collection_membership", fields);
    TwoFields(e, fields[0], fields[1]);
    assert "collectionId" != "assetId" by { assert |"collectionId"| == 12 && |"assetId"| == 7; }
  }

  // The texts by which a row's document is put in order.
  ghost predicate DocKeyed(e: Encoding, i: nat, r: Record) {
    WellFormed(ToValue(e, r)) &&
    var d := Mean(ToValue(e, r));
    if i < 8 then Key(e, r) == TextOf(e, d, "id")
    else 0 !in TextOf(e, d, "collectionId") && Key(e, r) == PairKey(TextOf(e, d, "collectionId"), TextOf(e, d, "assetId"))
  }

  lemma LibraryKey(e: Encoding, name: string)
    requires Faithful(e)
    ensures DocKeyed(e, 0, LibraryRecord(name))
  {
    hide ToValue, Doc, Mean, WellFormed, Faithful, TextOf;
    IdTexts(e);
    LibrarySays(e, name);
  }

  lemma RootKey(e: Encoding, k: Id, r: Root)
    requires Faithful(e)
    ensures DocKeyed(e, 1, RootRecord(k, r.display, r.linked))
  {
    hide ToValue, Doc, Mean, WellFormed, Faithful, TextOf;
    IdTexts(e);
    RootSays(e, k, r);
  }

  lemma SourceKey(e: Encoding, k: Id, s: Source)
    requires Faithful(e)
    ensures DocKeyed(e, 2, SourceRecord(k, s.family, s.current))
  {
    hide ToValue, Doc, Mean, WellFormed, Faithful, TextOf;
    IdTexts(e);
    SourceSays(e, k, s);
  }

  lemma RevisionKey(e: Encoding, k: Id, r: Revision)
    requires Faithful(e)
    ensures DocKeyed(e, 3, RevisionRecord(k, r.source, r.size, r.fingerprint, r.media))
  {
    hide ToValue, Doc, Mean, WellFormed, Faithful, TextOf;
    IdTexts(e);
    RevisionSays(e, k, r);
  }

  lemma LocationKey(e: Encoding, k: Id, l: Location)
    requires Faithful(e)
    ensures DocKeyed(e, 4, LocationRecord(k, l.root, l.source, l.path, l.display))
  {
    hide ToValue, Doc, Mean, WellFormed, Faithful, TextOf;
    IdTexts(e);
    LocationSays(e, k, l);
  }

  lemma OriginKey(e: Encoding, k: Id, o: Origin)
    requires Faithful(e)
    ensures DocKeyed(e, 5, OriginRecord(k, o.asset, o.source))
  {
    hide ToValue, Doc, Mean, WellFormed, Faithful, TextOf;
    IdTexts(e);
    OriginSays(e, k, o);
  }

  lemma AssetKey(e: Encoding, k: Id, a: Asset)
    requires Faithful(e)
    ensures DocKeyed(e, 6, AssetRecord(k, a.title, a.review, a.note, a.tags, a.usedIn))
  {
    hide ToValue, Doc, Mean, WellFormed, Faithful, TextOf;
    IdTexts(e);
    AssetSays(e, k, a);
  }

  lemma CollectionKey(e: Encoding, k: Id, c: Collection)
    requires Faithful(e)
    ensures DocKeyed(e, 7, CollectionRecord(k, c.name))
  {
    hide ToValue, Doc, Mean, WellFormed, Faithful, TextOf;
    IdTexts(e);
    CollectionSays(e, k, c);
  }

  lemma MembershipKey(e: Encoding, m: (Id, Id))
    requires Faithful(e)
    ensures DocKeyed(e, 8, MembershipRecord(m.0, m.1))
  {
    hide ToValue, Doc, Mean, WellFormed, TextOf;
    MembershipSays(e, m);
    PairTexts(e, m);
  }

  lemma DocKey(e: Encoding, t: Tables, i: nat, r: Record)
    requires Faithful(e) && i < |SECTION_NAMES| && r in Records(t, ENTITIES[i])
    ensures DocKeyed(e, i, r)
  {
    hide DocKeyed, Faithful;
    match ENTITIES[i]
    case LibraryEntity => LibraryKey(e, t.library);
    case Roots => RootKey(e, r.id, t.roots[r.id]);
    case Sources => SourceKey(e, r.id, t.sources[r.id]);
    case SourceRevisions => RevisionKey(e, r.id, t.revisions[r.id]);
    case Locations => LocationKey(e, r.id, t.locations[r.id]);
    case AssetOrigins => OriginKey(e, r.id, t.origins[r.id]);
    case Assets => AssetKey(e, r.id, t.assets[r.id]);
    case Collections => CollectionKey(e, r.id, t.collections[r.id]);
    case CollectionMemberships => MembershipKey(e, (r.collection, r.asset));
  }

  // A section's documents stand in ascending byte order of their ids; memberships
  // by Collection id and then by Asset id.
  lemma SectionOrder(e: Encoding, t: Tables, i: nat, m: nat, n: nat)
    requires Faithful(e) && i < |SECTION_NAMES| && i < |Sections(e, t)| && m < n < |Sections(e, t)[i].records|
    ensures WellFormed(Sections(e, t)[i].records[m]) && WellFormed(Sections(e, t)[i].records[n])
    ensures var a, b := Mean(Sections(e, t)[i].records[m]), Mean(Sections(e, t)[i].records[n]);
      if i < 8 then Less(TextOf(e, a, "id"), TextOf(e, b, "id"))
      else
        || Less(TextOf(e, a, "collectionId"), TextOf(e, b, "collectionId"))
        || (TextOf(e, a, "collectionId") == TextOf(e, b, "collectionId") && Less(TextOf(e, a, "assetId"), TextOf(e, b, "assetId")))
  {
    hide Records, ToValue, Mean, WellFormed, Faithful, Listing, TextOf, Less, PairKey, Key, Ascending;
    var rows := Records(t, ENTITIES[i]);
    var list := Listing(e, rows);
    assert Sections(e, t)[i].records == Documents(e, list);
    ListedAt(e, rows, m);
    ListedAt(e, rows, n);
    AscendingRises(KeysOf(e, rows));
    DocKey(e, t, i, list[m]);
    DocKey(e, t, i, list[n]);
    assert Less(Key(e, list[m]), Key(e, list[n]));
    if i == 8 {
      var a, b := Mean(ToValue(e, list[m])), Mean(ToValue(e, list[n]));
      PairOrder(TextOf(e, a, "collectionId"), TextOf(e, a, "assetId"), TextOf(e, b, "collectionId"), TextOf(e, b, "assetId"));
    }
  }

  // What is printed of a record reads back, by the grammar, as the document of its row.
  lemma LineReads(e: Encoding, t: Tables, i: nat, n: nat)
    requires Faithful(e) && i < |SECTION_NAMES| && i < |Sections(e, t)| && n < |Sections(e, t)[i].records|
    ensures var v := Sections(e, t)[i].records[n];
      && WellFormed(v) && Mean(v) in Docs(e, t, i) && Reader.Read(Write(v)) == Some((Mean(v), []))
  {
    hide Docs, Mean, WellFormed, Write, Sections, Faithful, Reader.Read;
    SectionSays(e, t, i);
    var v := Sections(e, t)[i].records[n];
    assert v in Sections(e, t)[i].records;
    Reader.CanonicalReads(v, []);
    assert Write(v) + [] == Write(v);
  }

  // The domain that every digest starts with.
  lemma DomainSays()
    ensures DOMAIN == Pages.Ascii("pitchdog-reference-canonical-projection") + [0] + Pages.Ascii("v1")
  {
    var s, v := "pitchdog-reference-canonical-projection", "v1";
    assert |s| == 39 && |v| == 2 && |DOMAIN| == 42;
    var a := Pages.Ascii(s) + [0] + Pages.Ascii(v);
    forall i | 0 <= i < 39 ensures DOMAIN[i] == a[i] {
      assert a[i] == s[i] as int % 256;
    }
    assert a[39] == 0 && a[40] == v[0] as int % 256 && a[41] == v[1] as int % 256;
  }
}
