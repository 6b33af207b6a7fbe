/**
 The canonical meaning of the catalogue: its records, without operational state
 (Root, Location, lineage and job states, times, file ids, revision counters).
 */
module Projection {
  import opened Wrappers
  import opened Tables

  datatype Entity =
    | LibraryEntity | Roots | Sources | SourceRevisions | Locations | AssetOrigins | Assets | Collections | CollectionMemberships

  datatype Record =
    | LibraryRecord(name: string)
    | RootRecord(id: Id, display: string, linked: bool)
    | SourceRecord(id: Id, family: string, current: Id)
    | RevisionRecord(id: Id, source: Id, size: nat, fingerprint: Option<string>, media: Media)
    | LocationRecord(id: Id, root: Id, source: Id, path: Path, display: string)
    | OriginRecord(id: Id, asset: Id, source: Id)
    | AssetRecord(id: Id, title: Option<string>, review: ReviewState, note: Option<string>, tags: seq<string>, usedIn: seq<string>)
    | CollectionRecord(id: Id, name: string)
    | MembershipRecord(collection: Id, asset: Id)

  ghost function RootRecords(m: map<Id, Root>): set<Record> {
    set k | k in m :: RootRecord(k, m[k].display, m[k].linked)
  }

  ghost function SourceRecords(m: map<Id, Source>): set<Record> {
    set k | k in m :: SourceRecord(k, m[k].family, m[k].current)
  }

  ghost function RevisionRecords(m: map<Id, Revision>): set<Record> {
    set k | k in m :: RevisionRecord(k, m[k].source, m[k].size, m[k].fingerprint, m[k].media)
  }

  ghost function LocationRecords(m: map<Id, Location>): set<Record> {
    set k | k in m :: LocationRecord(k, m[k].root, m[k].source, m[k].path, m[k].display)
  }

  ghost function OriginRecords(m: map<Id, Origin>): set<Record> {
    set k | k in m :: OriginRecord(k, m[k].asset, m[k].source)
  }

  ghost function AssetRecords(m: map<Id, Asset>): set<Record> {
    set k | k in m :: AssetRecord(k, m[k].title, m[k].review, m[k].note, m[k].tags, m[k].usedIn)
  }

  ghost function CollectionRecords(m: map<Id, Collection>): set<Record> {
    set k | k in m :: CollectionRecord(k, m[k].name)
  }

  ghost function MembershipRecords(members: set<(Id, Id)>): set<Record> {
    set m | m in members :: MembershipRecord(m.0, m.1)
  }

  ghost function Records(t: Tables, entity: Entity): set<Record> {
    match entity
    case LibraryEntity => {LibraryRecord(t.library)}
    case Roots => RootRecords(t.roots)
    case Sources => SourceRecords(t.sources)
    case SourceRevisions => RevisionRecords(t.revisions)
    case Locations => LocationRecords(t.locations)
    case AssetOrigins => OriginRecords(t.origins)
    case Assets => AssetRecords(t.assets)
    case Collections => CollectionRecords(t.collections)
    case CollectionMemberships => MembershipRecords(t.members)
  }

  // The same canonical meaning.
  ghost predicate SameMeaning(a: Tables, b: Tables) {
    forall e :: Records(a, e) == Records(b, e)
  }

  // Only operational columns of Roots differ.
  lemma RootsMean(a: map<Id, Root>, b: map<Id, Root>)
    requires a.Keys == b.Keys
    requires forall k <- a :: b[k].display == a[k].display && b[k].linked == a[k].linked
    ensures RootRecords(a) == RootRecords(b)
  {
    assert forall k :: k in a <==> k in b;
  }
}
