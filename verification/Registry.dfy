/** The registry's shared entities: published records, the sidecars laid over
    them, and the storage view that every index is meant to show. */
module Registry {

  datatype Option<+T> = None | Some(value: T)

  datatype Visibility = Public | Private

  datatype Status = Active | Yanked

  datatype Governance = Governance(
    businessPurpose: Option<string>,
    systemsAccessed: seq<string>,
    reviewDate: Option<string>)

  const UNGOVERNED := Governance(None, [], None)

  /** One published skill version. */
  datatype Key = Key(id: string, version: string)

  datatype SignatureKind = DevRsa | Sigstore

  /** What the tag manifest of one published version says. */
  datatype Record = Record(
    id: string,
    version: string,
    digest: string,
    signature: string,
    signatureKind: SignatureKind,
    name: string,
    description: string,
    category: string,
    ownerTeam: string,
    tags: seq<string>,
    ownerTenant: string,
    visibility: Visibility)
  {
    function Coordinates(): Key { Key(id, version) }
  }

  /** An index entry: the immutable record with both sidecars laid over it. */
  datatype Entry = Entry(record: Record, status: Status, governance: Governance)
  {
    function Coordinates(): Key { record.Coordinates() }
  }

  type Index = map<Key, Entry>

  /** A record parsed back from its tag, before any sidecar is applied. */
  function Parsed(r: Record): Entry {
    Entry(r, Active, UNGOVERNED)
  }

  function ApplyStatus(e: Entry, sidecar: Option<Status>): Entry {
    match sidecar
    case None => e
    case Some(status) => e.(status := status)
  }

  function ApplyGovernance(e: Entry, sidecar: Option<Governance>): Entry {
    match sidecar
    case None => e
    case Some(governance) => e.(governance := governance)
  }

  /** The stored tags, which are write-once, and the sidecars, which are not. */
  datatype Storage = Storage(
    tags: map<Key, Record>,
    statuses: map<Key, Status>,
    governance: map<string, Governance>)
  {
    /** Every tag is filed under its own id and version. */
    ghost predicate Filed() {
      forall k :: k in tags ==> tags[k].Coordinates() == k
    }

    function StatusOf(k: Key): Option<Status> {
      if k in statuses then Some(statuses[k]) else None
    }

    function GovernanceOf(id: string): Option<Governance> {
      if id in governance then Some(governance[id]) else None
    }

    /** The entry that storage currently prescribes for a published version. */
    function ViewOf(k: Key): Entry
      requires k in tags
    {
      ApplyGovernance(ApplyStatus(Parsed(tags[k]), StatusOf(k)), GovernanceOf(k.id))
    }

    function View(): Index {
      map k | k in tags :: ViewOf(k)
    }

    /** Every published version, and for each one its own sidecar and its skill's. */
    lemma ViewMeans()
      ensures View().Keys == tags.Keys
      ensures forall k :: k in tags ==>
                View()[k] == Entry(tags[k], if k in statuses then statuses[k] else Active,
                                   if k.id in governance then governance[k.id] else Governance(None, [], None))
    {
    }
  }
}
