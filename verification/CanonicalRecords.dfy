/**
 How a canonical record becomes a JSON document, and that nothing is lost on the
 way: the digest's byte stream determines the canonical meaning of the catalogue.
 */
module CanonicalRecords {
  import opened Wrappers
  import opened Tables
  import opened Projection
  import opened CanonicalJson
  import opened CanonicalStream
  import opened Decimals

  // The texts of identifiers, strings and paths: UUIDs, UTF-8, hexadecimal bytes.
  datatype Encoding = Encoding(library: Text, id: Id -> Text, utf8: string -> Text, path: Path -> Text)

  ghost predicate Faithful(e: Encoding) {
    && (forall a: Id, b: Id {:trigger e.id(a), e.id(b)} | e.id(a) == e.id(b) :: a == b)
    && (forall a: Id {:trigger e.id(a)} :: 0 !in e.id(a))
    && (forall a: string, b: string {:trigger e.utf8(a), e.utf8(b)} | e.utf8(a) == e.utf8(b) :: a == b)
    && (forall a: string {:trigger e.utf8(a)} :: |e.utf8(a)| >= |a|)
    && (forall a: Path, b: Path {:trigger e.path(a), e.path(b)} | e.path(a) == e.path(b) :: a == b)
  }

  // Two Libraries have ids of their own; strings and paths are written alike.
  ghost predicate SameScript(e: Encoding, f: Encoding) { e.utf8 == f.utf8 && e.path == f.path }

  // A record with its ids as texts, as another Library would read it.
  datatype Spelled = Spelled(ids: seq<Text>, rest: Record)

  function Spell(e: Encoding, r: Record): Spelled {
    match r
    case LibraryRecord(_) => Spelled([e.library], r)
    case RootRecord(id, display, linked) => Spelled([e.id(id)], RootRecord(0, display, linked))
    case SourceRecord(id, family, current) => Spelled([e.id(id), e.id(current)], SourceRecord(0, family, 0))
    case RevisionRecord(id, source, size, fingerprint, media) =>
      Spelled([e.id(id), e.id(source)], RevisionRecord(0, 0, size, fingerprint, media))
    case LocationRecord(id, root, source, path, display) =>
      Spelled([e.id(id), e.id(root), e.id(source)], LocationRecord(0, 0, 0, path, display))
    case OriginRecord(id, asset, source) => Spelled([e.id(id), e.id(asset), e.id(source)], OriginRecord(0, 0, 0))
    case AssetRecord(id, title, review, note, tags, usedIn) =>
      Spelled([e.id(id)], AssetRecord(0, title, review, note, tags, usedIn))
    case CollectionRecord(id, name) => Spelled([e.id(id)], CollectionRecord(0, name))
    case MembershipRecord(collection, asset) => Spelled([e.id(collection), e.id(asset)], MembershipRecord(0, 0))
  }

  // Within one Library the spelling determines the record.
  lemma SpellExact(e: Encoding, a: Record, b: Record)
    requires Faithful(e) && Spell(e, a) == Spell(e, b)
    ensures a == b
  {
    var x, y := Spell(e, a), Spell(e, b);
    assert forall i | 0 <= i < |x.ids| :: x.ids[i] == y.ids[i];
    assert EntityOf(x.rest) == EntityOf(a) && EntityOf(y.rest) == EntityOf(b);
  }

  function EntityOf(r: Record): Entity {
    match r
    case LibraryRecord(_) => LibraryEntity
    case RootRecord(_, _, _) => Roots
    case SourceRecord(_, _, _) => Sources
    case RevisionRecord(_, _, _, _, _) => SourceRevisions
    case LocationRecord(_, _, _, _, _) => Locations
    case OriginRecord(_, _, _) => AssetOrigins
    case AssetRecord(_, _, _, _, _, _) => Assets
    case CollectionRecord(_, _) => Collections
    case MembershipRecord(_, _) => CollectionMemberships
  }

  function Tag(e: Entity): string {
    match e
    case LibraryEntity => "library"
    case Roots => "root"
    case Sources => "source"
    case SourceRevisions => "source_revision"
    case Locations => "location"
    case AssetOrigins => "asset_origin"
    case Assets => "asset"
    case Collections => "collection"
    case CollectionMemberships => "collection_membership"
  }

  function FieldNames(e: Entity): seq<string> {
    match e
    case LibraryEntity => ["id", "name"]
    case Roots => ["id", "displayName", "rootKind"]
    case Sources => ["id", "mediaFamily", "currentRevisionId"]
    case SourceRevisions => ["id", "sourceId", "byteSize", "quickFingerprint", "mimeDetected", "extensionObserved", "mediaMetadata"]
    case Locations => ["id", "rootId", "sourceId", "relativePathBytesHex", "relativePathDisplay"]
    case AssetOrigins => ["id", "assetId", "sourceId", "originKind", "originSpec", "revisionBinding"]
    case Assets => ["id", "customTitle", "reviewState", "note", "tags", "usedIn"]
    case Collections => ["id", "name"]
    case CollectionMemberships => ["collectionId", "assetId"]
  }

  const RECORD_NAMES := ["recordType", "record"]

  const METADATA_NAMES := ["gridPreview", "pixelHeight", "pixelWidth", "previewKind"]

  function Names(e: Encoding, names: seq<string>): (keys: seq<Text>)
    ensures |keys| == |names|
  {
    seq(|names|, i requires 0 <= i < |names| => e.utf8(names[i]))
  }

  /** Field values. */

  function Str(e: Encoding, s: string): Value { String(e.utf8(s)) }

  function Opt(e: Encoding, s: Option<string>): Value { if s.Some? then Str(e, s.value) else Null }

  function Num(n: nat): Value { Value.Number(Decimal(n)) }

  function Strings(e: Encoding, ss: seq<string>): Value {
    Array(seq(|ss|, i requires 0 <= i < |ss| => Str(e, ss[i])))
  }

  function ReviewName(r: ReviewState): string {
    match r
    case Unreviewed => "unreviewed"
    case Keep => "keep"
    case Maybe => "maybe"
    case Reject => "reject"
  }

  function Metadata(e: Encoding, m: Media): Value {
    Object(Names(e, METADATA_NAMES), [Bool(m.grid), Num(m.height), Num(m.width), Str(e, m.preview)])
  }

  function FieldValues(e: Encoding, r: Record): (values: seq<Value>)
    ensures |values| == |FieldNames(EntityOf(r))|
  {
    match r
    case LibraryRecord(name) => [String(e.library), Str(e, name)]
    case RootRecord(id, display, linked) => [String(e.id(id)), Str(e, display), Str(e, if linked then "linked" else "embedded")]
    case SourceRecord(id, family, current) => [String(e.id(id)), Str(e, family), String(e.id(current))]
    case RevisionRecord(id, source, size, fingerprint, media) =>
      [String(e.id(id)), String(e.id(source)), Num(size), Opt(e, fingerprint), Str(e, media.mime), Opt(e, media.extension), Metadata(e, media)]
    case LocationRecord(id, root, source, path, display) =>
      [String(e.id(id)), String(e.id(root)), String(e.id(source)), String(e.path(path)), Str(e, display)]
    case OriginRecord(id, asset, source) =>
      [String(e.id(id)), String(e.id(asset)), String(e.id(source)), Str(e, "whole"),
       Object([e.utf8("kind")], [Str(e, "whole")]), Str(e, "latest")]
    case AssetRecord(id, title, review, note, tags, usedIn) =>
      [String(e.id(id)), Opt(e, title), Str(e, ReviewName(review)), Opt(e, note), Strings(e, tags), Strings(e, usedIn)]
    case CollectionRecord(id, name) => [String(e.id(id)), Str(e, name)]
    case MembershipRecord(collection, asset) => [String(e.id(collection)), String(e.id(asset))]
  }

  function ToValue(e: Encoding, r: Record): Value {
    Object(Names(e, RECORD_NAMES),
           [Str(e, Tag(EntityOf(r))), Object(Names(e, FieldNames(EntityOf(r))), FieldValues(e, r))])
  }

  /** Every document of a record is well formed. */

  ghost predicate DifferentNames(names: seq<string>) {
    forall i, j | 0 <= i < j < |names| :: names[i] != names[j]
  }

  lemma NamesDistinct(e: Encoding, names: seq<string>)
    requires Faithful(e) && DifferentNames(names)
    ensures Distinct(Names(e, names))
  {
  }

  lemma OuterNamesDiffer()
    ensures DifferentNames(METADATA_NAMES) && DifferentNames(RECORD_NAMES)
  {
  }

  lemma FieldNamesDiffer(x: Entity)
    ensures DifferentNames(FieldNames(x))
  {
    match x
    case SourceRevisions => RevisionNamesDiffer();
    case _ =>
  }

  lemma RevisionNamesDiffer()
    ensures DifferentNames(FieldNames(SourceRevisions))
  {
    var n := FieldNames(SourceRevisions);
    assert |n[0]| == 2 && |n[1]| == 8 && |n[2]| == 8 && |n[3]| == 16 && |n[4]| == 12 && |n[5]| == 17 && |n[6]| == 13;
    assert n[1][0] != n[2][0];
  }

  lemma NumFormed(n: nat)
    ensures WellFormed(Num(n))
  {
    DecimalReads(n);
  }

  lemma MetadataFormed(e: Encoding, m: Media)
    requires Faithful(e)
    ensures WellFormed(Metadata(e, m))
  {
    OuterNamesDiffer();
    NamesDistinct(e, METADATA_NAMES);
    NumFormed(m.height);
    NumFormed(m.width);
  }

  lemma FieldsFormed(e: Encoding, r: Record)
    requires Faithful(e)
    ensures forall v <- FieldValues(e, r) :: WellFormed(v)
  {
    hide Metadata, Num, Faithful;
    match r
    case RevisionRecord(_, _, size, _, media) =>
      NumFormed(size);
      MetadataFormed(e, media);
    case _ =>
  }

  lemma RecordFormed(e: Encoding, r: Record)
    requires Faithful(e)
    ensures WellFormed(Object(Names(e, FieldNames(EntityOf(r))), FieldValues(e, r))) && WellFormed(ToValue(e, r))
  {
    hide FieldValues, FieldNames, Names;
    FieldNamesDiffer(EntityOf(r));
    NamesDistinct(e, FieldNames(EntityOf(r)));
    OuterNamesDiffer();
    NamesDistinct(e, RECORD_NAMES);
    FieldsFormed(e, r);
  }

  /** Nothing is lost. */

  // Two objects with the same members mean the same only member by member.
  lemma SameFields(keys: seq<Text>, a: seq<Value>, b: seq<Value>, i: nat)
    requires WellFormed(Object(keys, a)) && WellFormed(Object(keys, b)) && i < |keys|
    requires Mean(Object(keys, a)) == Mean(Object(keys, b))
    ensures Mean(a[i]) == Mean(b[i])
  {
    hide MeanMembers, Place;
    MeanMember(keys, a, keys[i]);
    MeanMember(keys, b, keys[i]);
    assert Place(keys, keys[i]) == i;
  }

  lemma NumExact(a: nat, b: nat)
    requires WellFormed(Num(a)) && WellFormed(Num(b)) && Mean(Num(a)) == Mean(Num(b))
    ensures a == b
  {
    DecimalExact(a, b);
  }

  lemma StringsExact(e: Encoding, a: seq<string>, b: seq<string>)
    requires Faithful(e) && Mean(Strings(e, a)) == Mean(Strings(e, b))
    ensures a == b
  {
    var va, vb := Strings(e, a).items, Strings(e, b).items;
    MeanArray(va, vb);
    forall i | 0 <= i < |a| ensures a[i] == b[i] {
      assert Mean(va[i]) == Mean(vb[i]);
    }
  }

  lemma MetadataExact(e: Encoding, a: Media, b: Media)
    requires Faithful(e) && WellFormed(Metadata(e, a)) && WellFormed(Metadata(e, b))
    requires Mean(Metadata(e, a)) == Mean(Metadata(e, b))
    ensures a.grid == b.grid && a.height == b.height && a.width == b.width && a.preview == b.preview
  {
    hide Names, Num, Decimal, WellFormed;
    var keys, va, vb := Names(e, METADATA_NAMES), Metadata(e, a).values, Metadata(e, b).values;
    SameFields(keys, va, vb, 0);
    SameFields(keys, va, vb, 1);
    SameFields(keys, va, vb, 2);
    SameFields(keys, va, vb, 3);
    NumFormed(a.height); NumFormed(b.height); NumFormed(a.width); NumFormed(b.width);
    NumExact(a.height, b.height);
    NumExact(a.width, b.width);
  }

  ghost predicate SameValues(a: seq<Value>, b: seq<Value>)
    requires (forall v <- a :: WellFormed(v)) && forall v <- b :: WellFormed(v)
  {
    |a| == |b| && forall i | 0 <= i < |a| :: Mean(a[i]) == Mean(b[i])
  }

  lemma RevisionExact(e: Encoding, a: Record, f: Encoding, b: Record)
    requires Faithful(e) && Faithful(f) && SameScript(e, f) && a.RevisionRecord? && b.RevisionRecord?
    requires (forall v <- FieldValues(e, a) :: WellFormed(v)) && forall v <- FieldValues(f, b) :: WellFormed(v)
    requires SameValues(FieldValues(e, a), FieldValues(f, b))
    ensures Spell(e, a) == Spell(f, b)
  {
    hide Num, Metadata, FieldNames;
    var va, vb := FieldValues(e, a), FieldValues(f, b);
    assert Mean(va[0]) == Mean(vb[0]) && Mean(va[1]) == Mean(vb[1]) && Mean(va[2]) == Mean(vb[2]) && Mean(va[3]) == Mean(vb[3]);
    assert Mean(va[4]) == Mean(vb[4]) && Mean(va[5]) == Mean(vb[5]) && Mean(va[6]) == Mean(vb[6]);
    NumFormed(a.size); NumFormed(b.size);
    NumExact(a.size, b.size);
    MetadataFormed(e, a.media); MetadataFormed(f, b.media);
    SameMetadata(e, f, b.media);
    MetadataExact(e, a.media, b.media);
  }

  lemma AssetExact(e: Encoding, a: Record, f: Encoding, b: Record)
    requires Faithful(e) && Faithful(f) && SameScript(e, f) && a.AssetRecord? && b.AssetRecord?
    requires (forall v <- FieldValues(e, a) :: WellFormed(v)) && forall v <- FieldValues(f, b) :: WellFormed(v)
    requires SameValues(FieldValues(e, a), FieldValues(f, b))
    ensures Spell(e, a) == Spell(f, b)
  {
    hide Strings, FieldNames;
    var va, vb := FieldValues(e, a), FieldValues(f, b);
    assert Mean(va[0]) == Mean(vb[0]) && Mean(va[1]) == Mean(vb[1]) && Mean(va[2]) == Mean(vb[2]) && Mean(va[3]) == Mean(vb[3]);
    assert Mean(va[4]) == Mean(vb[4]) && Mean(va[5]) == Mean(vb[5]);
    SameStrings(e, f, b.tags);
    SameStrings(e, f, b.usedIn);
    StringsExact(e, a.tags, b.tags);
    StringsExact(e, a.usedIn, b.usedIn);
    ReviewExact(e, a.review, b.review);
  }

  lemma ReviewExact(e: Encoding, a: ReviewState, b: ReviewState)
    requires Faithful(e) && Mean(Str(e, ReviewName(a))) == Mean(Str(e, ReviewName(b)))
    ensures a == b
  {
    assert ReviewName(a) == ReviewName(b);
    assert |ReviewName(Keep)| == 4 && |ReviewName(Maybe)| == 5 && |ReviewName(Reject)| == 6 && |ReviewName(Unreviewed)| == 10;
  }

  // A text field has one meaning.
  lemma TextExact(a: seq<Value>, b: seq<Value>, i: nat)
    requires (forall v <- a :: WellFormed(v)) && (forall v <- b :: WellFormed(v)) && SameValues(a, b) && i < |a|
    requires a[i].String? && b[i].String?
    ensures a[i].text == b[i].text
  {
    assert Mean(a[i]) == Mean(b[i]);
  }

  lemma NamedExact(e: Encoding, a: Record, f: Encoding, b: Record)
    requires Faithful(e) && Faithful(f) && SameScript(e, f) && EntityOf(a) == EntityOf(b) && (a.CollectionRecord? || a.MembershipRecord?)
    requires (forall v <- FieldValues(e, a) :: WellFormed(v)) && forall v <- FieldValues(f, b) :: WellFormed(v)
    requires SameValues(FieldValues(e, a), FieldValues(f, b))
    ensures Spell(e, a) == Spell(f, b)
  {
    hide FieldNames, WellFormed, Mean, Metadata, Num, Strings, Opt, ReviewName, SameValues;
    var va, vb := FieldValues(e, a), FieldValues(f, b);
    TextExact(va, vb, 0);
    TextExact(va, vb, 1);
  }

  lemma LibraryExact(e: Encoding, a: Record, f: Encoding, b: Record)
    requires Faithful(e) && Faithful(f) && SameScript(e, f) && EntityOf(a) == EntityOf(b) && (a.LibraryRecord?)
    requires (forall v <- FieldValues(e, a) :: WellFormed(v)) && forall v <- FieldValues(f, b) :: WellFormed(v)
    requires SameValues(FieldValues(e, a), FieldValues(f, b))
    ensures Spell(e, a) == Spell(f, b)
  {
    hide FieldNames, WellFormed, Mean, Metadata, Num, Strings, Opt, ReviewName, SameValues;
    var va, vb := FieldValues(e, a), FieldValues(f, b);
    TextExact(va, vb, 0);
    TextExact(va, vb, 1);
  }

  lemma RootExact(e: Encoding, a: Record, f: Encoding, b: Record)
    requires Faithful(e) && Faithful(f) && SameScript(e, f) && EntityOf(a) == EntityOf(b) && (a.RootRecord?)
    requires (forall v <- FieldValues(e, a) :: WellFormed(v)) && forall v <- FieldValues(f, b) :: WellFormed(v)
    requires SameValues(FieldValues(e, a), FieldValues(f, b))
    ensures Spell(e, a) == Spell(f, b)
  {
    hide FieldNames, WellFormed, Mean, Metadata, Num, Strings, Opt, ReviewName, SameValues;
    var va, vb := FieldValues(e, a), FieldValues(f, b);
    TextExact(va, vb, 0);
    TextExact(va, vb, 1);
    TextExact(va, vb, 2);
    KindsDiffer();
  }

  lemma SourceExact(e: Encoding, a: Record, f: Encoding, b: Record)
    requires Faithful(e) && Faithful(f) && SameScript(e, f) && EntityOf(a) == EntityOf(b) && a.SourceRecord?
    requires (forall v <- FieldValues(e, a) :: WellFormed(v)) && forall v <- FieldValues(f, b) :: WellFormed(v)
    requires SameValues(FieldValues(e, a), FieldValues(f, b))
    ensures Spell(e, a) == Spell(f, b)
  {
    hide FieldNames, WellFormed, Mean, Metadata, Num, Strings, Opt, ReviewName, SameValues;
    var va, vb := FieldValues(e, a), FieldValues(f, b);
    TextExact(va, vb, 0);
    TextExact(va, vb, 1);
    TextExact(va, vb, 2);
  }

  lemma OriginExact(e: Encoding, a: Record, f: Encoding, b: Record)
    requires Faithful(e) && Faithful(f) && SameScript(e, f) && EntityOf(a) == EntityOf(b) && a.OriginRecord?
    requires (forall v <- FieldValues(e, a) :: WellFormed(v)) && forall v <- FieldValues(f, b) :: WellFormed(v)
    requires SameValues(FieldValues(e, a), FieldValues(f, b))
    ensures Spell(e, a) == Spell(f, b)
  {
    hide FieldNames, WellFormed, Mean, Metadata, Num, Strings, Opt, ReviewName, SameValues;
    var va, vb := FieldValues(e, a), FieldValues(f, b);
    TextExact(va, vb, 0);
    TextExact(va, vb, 1);
    TextExact(va, vb, 2);
  }

  lemma LocationExact(e: Encoding, a: Record, f: Encoding, b: Record)
    requires Faithful(e) && Faithful(f) && SameScript(e, f) && EntityOf(a) == EntityOf(b) && (a.LocationRecord?)
    requires (forall v <- FieldValues(e, a) :: WellFormed(v)) && forall v <- FieldValues(f, b) :: WellFormed(v)
    requires SameValues(FieldValues(e, a), FieldValues(f, b))
    ensures Spell(e, a) == Spell(f, b)
  {
    hide FieldNames, WellFormed, Mean, Metadata, Num, Strings, Opt, ReviewName, SameValues;
    var va, vb := FieldValues(e, a), FieldValues(f, b);
    TextExact(va, vb, 0);
    TextExact(va, vb, 1);
    TextExact(va, vb, 2);
    TextExact(va, vb, 3);
    TextExact(va, vb, 4);
  }

  lemma KindsDiffer()
    ensures "linked" != "embedded"
  {
    assert |"linked"| != |"embedded"|;
  }

  lemma TagExact(a: Entity, b: Entity)
    requires Tag(a) == Tag(b)
    ensures a == b
  {
    assert |Tag(LibraryEntity)| == 7 && |Tag(Roots)| == 4 && |Tag(Sources)| == 6 && |Tag(SourceRevisions)| == 15 && |Tag(Locations)| == 8
        && |Tag(AssetOrigins)| == 12 && |Tag(Assets)| == 5 && |Tag(Collections)| == 10 && |Tag(CollectionMemberships)| == 21;
  }

  // Documents of two records mean the same only if the records are spelled the
  // same; within one Library, only if they are the same.
  lemma RecordExact(e: Encoding, a: Record, f: Encoding, b: Record)
    requires Faithful(e) && Faithful(f) && SameScript(e, f)
    requires WellFormed(ToValue(e, a)) && WellFormed(ToValue(f, b)) && Mean(ToValue(e, a)) == Mean(ToValue(f, b))
    ensures Spell(e, a) == Spell(f, b)
    ensures e == f ==> a == b
  {
    hide Names, FieldValues, FieldNames, WellFormed, Spell;
    RecordFormed(e, a);
    RecordFormed(f, b);
    var va, vb := ToValue(e, a).values, ToValue(f, b).values;
    SameNames(e, f, RECORD_NAMES);
    SameFields(Names(e, RECORD_NAMES), va, vb, 0);
    SameFields(Names(e, RECORD_NAMES), va, vb, 1);
    TagExact(EntityOf(a), EntityOf(b));
    FieldsFormed(e, a);
    FieldsFormed(f, b);
    var names := FieldNames(EntityOf(a));
    SameNames(e, f, names);
    forall i | 0 <= i < |names| ensures Mean(FieldValues(e, a)[i]) == Mean(FieldValues(f, b)[i]) {
      SameFields(Names(e, names), FieldValues(e, a), FieldValues(f, b), i);
    }
    FieldsExact(e, a, f, b);
    if e == f { SpellExact(e, a, b); }
  }

  lemma SameNames(e: Encoding, f: Encoding, names: seq<string>)
    requires SameScript(e, f)
    ensures Names(e, names) == Names(f, names)
  {
  }

  lemma FieldsExact(e: Encoding, a: Record, f: Encoding, b: Record)
    requires Faithful(e) && Faithful(f) && SameScript(e, f) && EntityOf(a) == EntityOf(b)
    requires (forall v <- FieldValues(e, a) :: WellFormed(v)) && forall v <- FieldValues(f, b) :: WellFormed(v)
    requires SameValues(FieldValues(e, a), FieldValues(f, b))
    ensures Spell(e, a) == Spell(f, b)
  {
    hide FieldValues, FieldNames, WellFormed, Spell;
    match EntityOf(a)
    case SourceRevisions => RevisionExact(e, a, f, b);
    case Assets => AssetExact(e, a, f, b);
    case Locations => LocationExact(e, a, f, b);
    case LibraryEntity => LibraryExact(e, a, f, b);
    case Roots => RootExact(e, a, f, b);
    case Sources => SourceExact(e, a, f, b);
    case AssetOrigins => OriginExact(e, a, f, b);
    case _ => NamedExact(e, a, f, b);
  }

  // Records that are spelled the same have the same document and key.
  lemma SpellWrites(e: Encoding, a: Record, f: Encoding, b: Record)
    requires SameScript(e, f) && Spell(e, a) == Spell(f, b)
    ensures ToValue(e, a) == ToValue(f, b) && Key(e, a) == Key(f, b)
  {
    SpelledKind(e, a);
    SpelledKind(f, b);
    SameNames(e, f, RECORD_NAMES);
    SameNames(e, f, FieldNames(EntityOf(a)));
    SpellFields(e, a, f, b);
  }

  lemma SpelledKind(e: Encoding, r: Record)
    ensures EntityOf(Spell(e, r).rest) == EntityOf(r)
  {
  }

  lemma SpellFields(e: Encoding, a: Record, f: Encoding, b: Record)
    requires SameScript(e, f) && EntityOf(a) == EntityOf(b) && Spell(e, a) == Spell(f, b)
    ensures FieldValues(e, a) == FieldValues(f, b) && Key(e, a) == Key(f, b)
  {
    hide FieldNames, Num;
    var x, y := Spell(e, a).ids, Spell(f, b).ids;
    assert forall i | 0 <= i < |x| :: x[i] == y[i];
    match a
    case RevisionRecord(_, _, _, _, media) => SameMetadata(e, f, media);
    case AssetRecord(_, _, _, _, tags, usedIn) =>
      SameStrings(e, f, tags);
      SameStrings(e, f, usedIn);
    case _ =>
  }

  lemma SameStrings(e: Encoding, f: Encoding, ss: seq<string>)
    requires SameScript(e, f)
    ensures Strings(e, ss) == Strings(f, ss)
  {
  }

  lemma SameMetadata(e: Encoding, f: Encoding, m: Media)
    requires SameScript(e, f)
    ensures Metadata(e, m) == Metadata(f, m)
  {
    SameNames(e, f, METADATA_NAMES);
  }

  /** The sections of a catalogue. */

  // ORDER BY: every record of a section has its own key text.  A pair of ids is
  // ordered by its first id, then by its second.
  function Key(e: Encoding, r: Record): Text {
    match r
    case LibraryRecord(_) => e.library
    case RootRecord(id, _, _) => e.id(id)
    case SourceRecord(id, _, _) => e.id(id)
    case RevisionRecord(id, _, _, _, _) => e.id(id)
    case LocationRecord(id, _, _, _, _) => e.id(id)
    case OriginRecord(id, _, _) => e.id(id)
    case AssetRecord(id, _, _, _, _, _) => e.id(id)
    case CollectionRecord(id, _) => e.id(id)
    case MembershipRecord(collection, asset) => PairKey(e.id(collection), e.id(asset))
  }

  function PairKey(a: Text, b: Text): Text { a + [0] + b }

  lemma {:induction false} PairOrder(a: Text, b: Text, c: Text, d: Text)
    requires 0 !in a && 0 !in c
    ensures Less(PairKey(a, b), PairKey(c, d)) <==> Less(a, c) || (a == c && Less(b, d))
    ensures PairKey(a, b) == PairKey(c, d) ==> a == c && b == d
  {
    var x, y := PairKey(a, b), PairKey(c, d);
    if a == [] || c == [] {
      LessTotal(a, c);
      assert a == [] ==> x[0] == 0 && x[1..] == b;
      assert c == [] ==> y[0] == 0 && y[1..] == d;
      assert a != [] ==> x[0] == a[0] && a[0] in a;
      assert c != [] ==> y[0] == c[0] && c[0] in c;
    } else {
      assert x[0] == a[0] && y[0] == c[0] && x[1..] == PairKey(a[1..], b) && y[1..] == PairKey(c[1..], d);
      PairOrder(a[1..], b, c[1..], d);
      assert a == [a[0]] + a[1..] && c == [c[0]] + c[1..];
    }
  }

  ghost predicate Keyed(e: Encoding, records: set<Record>) {
    forall a, b | a in records && b in records && Key(e, a) == Key(e, b) :: a == b
  }

  ghost function KeysOf(e: Encoding, records: set<Record>): set<Text> {
    set r | r in records :: Key(e, r)
  }

  ghost function Pick(e: Encoding, records: set<Record>, k: Text): (r: Record)
    requires k in KeysOf(e, records)
    ensures r in records && Key(e, r) == k
  {
    var r :| r in records && Key(e, r) == k;
    r
  }

  // The records of a section in ascending key order.
  ghost function Listing(e: Encoding, records: set<Record>): (list: seq<Record>)
    ensures |list| == |KeysOf(e, records)|
  {
    var keys := Ascending(KeysOf(e, records));
    assert forall k <- keys :: k in KeysOf(e, records);
    seq(|keys|, i requires 0 <= i < |keys| => assert keys[i] in keys; Pick(e, records, keys[i]))
  }

  lemma ListingHolds(e: Encoding, records: set<Record>, r: Record)
    requires Keyed(e, records)
    ensures r in Listing(e, records) <==> r in records
  {
    hide Ascending;
    var keys, list := Ascending(KeysOf(e, records)), Listing(e, records);
    if r in records {
      assert Key(e, r) in KeysOf(e, records);
      assert Key(e, r) in keys;
      var i :| 0 <= i < |keys| && keys[i] == Key(e, r);
      assert list[i] == r;
    }
  }

  lemma MembershipKeys(e: Encoding, a: (Id, Id), b: (Id, Id))
    requires Faithful(e) && PairKey(e.id(a.0), e.id(a.1)) == PairKey(e.id(b.0), e.id(b.1))
    ensures a == b
  {
    PairOrder(e.id(a.0), e.id(a.1), e.id(b.0), e.id(b.1));
  }

  lemma RecordsKeyed(e: Encoding, t: Tables, x: Entity)
    requires Faithful(e)
    ensures Keyed(e, Records(t, x))
    ensures forall r <- Records(t, x) :: EntityOf(r) == x
  {
    if x.CollectionMemberships? {
      forall a, b | a in Records(t, x) && b in Records(t, x) && Key(e, a) == Key(e, b) ensures a == b {
        MembershipKeys(e, (a.collection, a.asset), (b.collection, b.asset));
      }
    }
  }

  const ENTITIES: seq<Entity> := [
    LibraryEntity, Roots, Sources, SourceRevisions, Locations, AssetOrigins, Assets, Collections, CollectionMemberships]

  function SectionName(x: Entity): string {
    match x
    case LibraryEntity => "library"
    case Roots => "roots"
    case Sources => "sources"
    case SourceRevisions => "source_revisions"
    case Locations => "locations"
    case AssetOrigins => "asset_origins"
    case Assets => "assets"
    case Collections => "collections"
    case CollectionMemberships => "collection_memberships"
  }

  ghost function Documents(e: Encoding, list: seq<Record>): (values: seq<Value>)
    ensures |values| == |list|
  {
    seq(|list|, i requires 0 <= i < |list| => ToValue(e, list[i]))
  }

  ghost function SectionOf(e: Encoding, t: Tables, x: Entity): Section {
    Section(e.utf8(SectionName(x)), Documents(e, Listing(e, Records(t, x))))
  }

  ghost function Sections(e: Encoding, t: Tables): (sections: seq<Section>)
    ensures |sections| == |ENTITIES|
  {
    seq(|ENTITIES|, i requires 0 <= i < |ENTITIES| => SectionOf(e, t, ENTITIES[i]))
  }

  // The records of a section as texts.
  ghost function SpelledSet(e: Encoding, records: set<Record>): set<Spelled> {
    set r | r in records :: Spell(e, r)
  }

  lemma SpelledIn(e: Encoding, records: set<Record>, r: Record)
    requires r in records
    ensures Spell(e, r) in SpelledSet(e, records)
  {
  }

  // Equal spellings, equal listings.
  lemma SameListing(e: Encoding, a: set<Record>, f: Encoding, b: set<Record>)
    requires SameScript(e, f) && Keyed(f, b) && SpelledSet(e, a) == SpelledSet(f, b)
    ensures KeysOf(e, a) == KeysOf(f, b) && |Listing(e, a)| == |Listing(f, b)|
    ensures forall i | 0 <= i < |Listing(e, a)| :: Spell(e, Listing(e, a)[i]) == Spell(f, Listing(f, b)[i])
  {
    hide Spell, Ascending, Key;
    KeysSpelled(e, a, f, b);
    KeysSpelled(f, b, e, a);
    assert KeysOf(e, a) == KeysOf(f, b);
    hide KeysOf, SpelledSet;
    forall i | 0 <= i < |Listing(e, a)| ensures Spell(e, Listing(e, a)[i]) == Spell(f, Listing(f, b)[i]) {
      ListedAt(e, a, i);
      ListedAt(f, b, i);
      var r := Listing(e, a)[i];
      SpelledIn(e, a, r);
      var q := SpelledOf(f, b, Spell(e, r));
      SpellWrites(e, r, f, q);
    }
  }

  lemma SpelledOf(e: Encoding, records: set<Record>, x: Spelled) returns (r: Record)
    requires x in SpelledSet(e, records)
    ensures r in records && Spell(e, r) == x
  {
    r :| r in records && Spell(e, r) == x;
  }

  lemma ListedAt(e: Encoding, records: set<Record>, i: nat)
    requires i < |Listing(e, records)|
    ensures i < |Ascending(KeysOf(e, records))|
    ensures Listing(e, records)[i] in records && Key(e, Listing(e, records)[i]) == Ascending(KeysOf(e, records))[i]
  {
    hide Ascending, Key;
    assert Ascending(KeysOf(e, records))[i] in Ascending(KeysOf(e, records));
  }

  lemma KeysSpelled(e: Encoding, a: set<Record>, f: Encoding, b: set<Record>)
    requires SameScript(e, f) && SpelledSet(e, a) == SpelledSet(f, b)
    ensures KeysOf(e, a) <= KeysOf(f, b)
  {
    hide Spell, Key;
    forall k <- KeysOf(e, a) ensures k in KeysOf(f, b) {
      var r :| r in a && Key(e, r) == k;
      SpelledIn(e, a, r);
      var q :| q in b && Spell(f, q) == Spell(e, r);
      SpellWrites(e, r, f, q);
    }
  }

  lemma ListingSpells(e: Encoding, records: set<Record>, x: Spelled)
    requires Keyed(e, records)
    ensures x in SpelledSet(e, records) <==> exists i :: 0 <= i < |Listing(e, records)| && Spell(e, Listing(e, records)[i]) == x
  {
    hide Spell, Listing;
    var list := Listing(e, records);
    if x in SpelledSet(e, records) {
      var r :| r in records && Spell(e, r) == x;
      ListingHolds(e, records, r);
      var i :| 0 <= i < |list| && list[i] == r;
    }
    if i :| 0 <= i < |list| && Spell(e, list[i]) == x {
      ListingHolds(e, records, list[i]);
    }
  }

  lemma SameSection(e: Encoding, a: Tables, f: Encoding, b: Tables, x: Entity)
    requires Faithful(e) && Faithful(f) && SameScript(e, f)
    requires Printable(SectionOf(e, a, x)) && Printable(SectionOf(f, b, x))
    ensures SameRecords(SectionOf(e, a, x), SectionOf(f, b, x)) <==> SpelledSet(e, Records(a, x)) == SpelledSet(f, Records(b, x))
  {
    hide Printable, Faithful, ToValue, Listing, Records, Mean, Spell, SpelledSet, Keyed;
    RecordsKeyed(e, a, x);
    RecordsKeyed(f, b, x);
    var la, lb := Listing(e, Records(a, x)), Listing(f, Records(b, x));
    var da, db := Documents(e, la), Documents(f, lb);
    if SameRecords(SectionOf(e, a, x), SectionOf(f, b, x)) {
      assert |la| == |lb|;
      forall i | 0 <= i < |la| ensures Spell(e, la[i]) == Spell(f, lb[i]) {
        RecordFormed(e, la[i]);
        RecordFormed(f, lb[i]);
        assert da[i] == ToValue(e, la[i]) && db[i] == ToValue(f, lb[i]);
        assert Mean(da[i]) == Mean(db[i]);
        RecordExact(e, la[i], f, lb[i]);
      }
      forall s ensures s in SpelledSet(e, Records(a, x)) <==> s in SpelledSet(f, Records(b, x)) {
        ListingSpells(e, Records(a, x), s);
        ListingSpells(f, Records(b, x), s);
      }
    }
    if SpelledSet(e, Records(a, x)) == SpelledSet(f, Records(b, x)) {
      SameListing(e, Records(a, x), f, Records(b, x));
      forall i | 0 <= i < |la| ensures da[i] == db[i] {
        SpellWrites(e, la[i], f, lb[i]);
      }
    }
  }

  // The digests of two Libraries are fed the same bytes exactly when all nine
  // record sets are spelled the same.
  lemma LibrariesExact(e: Encoding, a: Tables, f: Encoding, b: Tables)
    requires Faithful(e) && Faithful(f) && SameScript(e, f)
    requires (forall s <- Sections(e, a) :: Printable(s)) && forall s <- Sections(f, b) :: Printable(s)
    ensures Preimage(Sections(e, a)) == Preimage(Sections(f, b))
       <==> forall x :: SpelledSet(e, Records(a, x)) == SpelledSet(f, Records(b, x))
  {
    hide Printable, Faithful, Preimage, SectionOf, Records, SameRecords, SpelledSet;
    var sa, sb := Sections(e, a), Sections(f, b);
    forall i | 0 <= i < |ENTITIES| ensures sa[i].name == sb[i].name
      ensures SameRecords(sa[i], sb[i]) <==> SpelledSet(e, Records(a, ENTITIES[i])) == SpelledSet(f, Records(b, ENTITIES[i]))
    {
      assert sa[i] in sa && sb[i] in sb;
      SectionNamed(e, a, ENTITIES[i]);
      SectionNamed(f, b, ENTITIES[i]);
      SameSection(e, a, f, b, ENTITIES[i]);
    }
    StreamExact(sa, sb);
    if forall i | 0 <= i < |ENTITIES| :: SpelledSet(e, Records(a, ENTITIES[i])) == SpelledSet(f, Records(b, ENTITIES[i])) {
      forall x ensures SpelledSet(e, Records(a, x)) == SpelledSet(f, Records(b, x)) {
        var i := Turn(x);
      }
    }
  }

  // Every entity has its turn.
  function Turn(x: Entity): (i: nat)
    ensures i < |ENTITIES| && ENTITIES[i] == x
  {
    match x
    case LibraryEntity => 0
    case Roots => 1
    case Sources => 2
    case SourceRevisions => 3
    case Locations => 4
    case AssetOrigins => 5
    case Assets => 6
    case Collections => 7
    case CollectionMemberships => 8
  }

  // Two states of one Library feed the same bytes exactly when their canonical
  // meaning is the same.
  lemma DigestExact(e: Encoding, a: Tables, b: Tables)
    requires Faithful(e)
    requires (forall s <- Sections(e, a) :: Printable(s)) && forall s <- Sections(e, b) :: Printable(s)
    ensures Preimage(Sections(e, a)) == Preimage(Sections(e, b)) <==> SameMeaning(a, b)
  {
    hide Printable, Faithful, Preimage, Sections, Records, SpelledSet;
    LibrariesExact(e, a, e, b);
    forall x ensures SpelledSet(e, Records(a, x)) == SpelledSet(e, Records(b, x)) <==> Records(a, x) == Records(b, x) {
      SpelledSetExact(e, Records(a, x), Records(b, x));
    }
  }

  lemma SpelledSetExact(e: Encoding, a: set<Record>, b: set<Record>)
    requires Faithful(e)
    ensures SpelledSet(e, a) == SpelledSet(e, b) <==> a == b
  {
    hide Spell, Faithful;
    if SpelledSet(e, a) == SpelledSet(e, b) {
      forall r ensures r in a <==> r in b {
        if r in a {
          SpelledIn(e, a, r);
          var q :| q in b && Spell(e, q) == Spell(e, r);
          SpellExact(e, q, r);
        }
        if r in b {
          SpelledIn(e, b, r);
          var q :| q in a && Spell(e, q) == Spell(e, r);
          SpellExact(e, q, r);
        }
      }
    }
  }

  lemma SectionNamed(e: Encoding, t: Tables, x: Entity)
    ensures SectionOf(e, t, x).name == e.utf8(SectionName(x))
  {
  }

  /** Such texts exist. */

  // Four bytes of every character, and the decimal components of a path.
  function Wide(s: string): Text {
    if s == [] then [] else Big(s[0] as int, 4) + Wide(s[1..])
  }

  function Slashed(path: Path): Text {
    if path == [] then [] else Decimal(path[0]) + [47] + Slashed(path[1..])
  }

  lemma {:induction false} WideExact(a: string, b: string)
    requires Wide(a) == Wide(b)
    ensures a == b
  {
    if a != [] && b != [] {
      hide Big, Pow;
      assert Wide(a)[..4] == Big(a[0] as int, 4) && Wide(b)[..4] == Big(b[0] as int, 4);
      assert Wide(a)[4..] == Wide(a[1..]) && Wide(b)[4..] == Wide(b[1..]);
      CharFits(a[0]);
      CharFits(b[0]);
      BigExact(a[0] as int, b[0] as int, 4);
      WideExact(a[1..], b[1..]);
      assert a == [a[0]] + a[1..] && b == [b[0]] + b[1..];
    }
  }

  lemma CharFits(c: char)
    ensures (c as int) < Pow(4)
  {
    assert Pow(2) == 0x1_0000;
    assert Pow(4) == 0x1_0000_0000;
  }

  lemma {:induction false} WideLong(s: string)
    ensures |Wide(s)| >= |s|
  {
    if s != [] { WideLong(s[1..]); }
  }

  lemma DigitsSplit(a: Text, b: Text, x: Text, y: Text)
    requires Digits(a) && Digits(b) && a + ([47] + x) == b + ([47] + y)
    ensures a == b && x == y
  {
    Overlap(a, b, [47] + x, [47] + y);
    Overlap(b, a, [47] + y, [47] + x);
    Tail(47, x, y);
  }

  lemma SlashedFirst(path: Path)
    requires path != []
    ensures Digits(Decimal(path[0])) && Slashed(path) == Decimal(path[0]) + ([47] + Slashed(path[1..]))
  {
    DecimalReads(path[0]);
    hide Decimal;
  }

  lemma {:induction false} SlashedExact(a: Path, b: Path)
    requires Slashed(a) == Slashed(b)
    ensures a == b
  {
    if a != [] && b != [] {
      SlashedFirst(a);
      SlashedFirst(b);
      hide Slashed, Decimal, Digits;
      DigitsSplit(Decimal(a[0]), Decimal(b[0]), Slashed(a[1..]), Slashed(b[1..]));
      DecimalExact(a[0], b[0]);
      SlashedExact(a[1..], b[1..]);
      assert a == [a[0]] + a[1..] && b == [b[0]] + b[1..];
    }
  }

  lemma FaithfulExists(library: Text)
    ensures Faithful(Encoding(library, Decimal, Wide, Slashed))
  {
    var e := Encoding(library, Decimal, Wide, Slashed);
    forall a: Id, b: Id | e.id(a) == e.id(b) ensures a == b { DecimalExact(a, b); }
    forall a: Id ensures 0 !in e.id(a) { DecimalReads(a); }
    forall a: string, b: string | e.utf8(a) == e.utf8(b) ensures a == b { WideExact(a, b); }
    forall a: string ensures |e.utf8(a)| >= |a| { WideLong(a); }
    forall a: Path, b: Path | e.path(a) == e.path(b) ensures a == b { SlashedExact(a, b); }
  }
}
