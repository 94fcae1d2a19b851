/** The index each replica holds: entries by id and version, with a cached
    sorted id list, and version lookup under yanks. */
module IndexStore {
  import opened Ordering
  import opened Registry
  import opened Versions

  datatype Lookup = Found(entry: Entry) | Missing | Malformed

  /** The versions that `latest`, `stable` and ranges may choose from. */
  function Resolvable(versions: map<string, Entry>): set<string> {
    set v | v in versions && versions[v].status != Yanked
  }

  predicate Pinned(versions: map<string, Entry>, constraint: Option<string>) {
    constraint.Some? && constraint.value in versions
  }

  /** A literal version wins even when yanked; anything else is resolved. */
  function ResolveAmong(lib: Library, versions: map<string, Entry>, constraint: Option<string>): Lookup {
    if Pinned(versions, constraint) then Found(versions[constraint.value])
    else
      match ResolveVersion(lib, Resolvable(versions), constraint)
      case BadConstraint => Malformed
      case Resolved(None) => Missing
      case Resolved(Some(v)) => if v in versions then Found(versions[v]) else Missing
  }

  ghost predicate Filed(versions: map<string, Entry>) {
    forall v :: v in versions ==> versions[v].record.version == v
  }

  lemma ResolvesToMaximum(lib: Library, versions: map<string, Entry>, constraint: Option<string>)
    requires Canonical(lib, versions.Keys) && Filed(versions)
    ensures Pinned(versions, constraint) ==>
              ResolveAmong(lib, versions, constraint) == Found(versions[constraint.value])
    ensures !Pinned(versions, constraint) ==>
              match ResolveAmong(lib, versions, constraint)
              case Found(e) =>
                var v := e.record.version;
                && v in versions && versions[v] == e && e.status != Yanked
                && Answers(lib, Resolvable(versions), constraint, v)
              case Missing => Resolvable(versions) == {} || Pool(lib, Resolvable(versions), constraint) == Some({})
              case Malformed => Resolvable(versions) != {} && Pool(lib, Resolvable(versions), constraint) == None
  {
    ResolvedIsStored(lib, Resolvable(versions), constraint);
  }

  /** `latest` answers the greatest major number offered, among those the greatest
      minor, and among those the greatest patch. */
  lemma LatestHasGreatestNumbers(lib: Library, versions: map<string, Entry>, w: string)
    requires Canonical(lib, versions.Keys) && Filed(versions) && LATEST !in versions
    requires w in versions && versions[w].status != Yanked
    ensures ResolveAmong(lib, versions, Some(LATEST)).Found?
    ensures var e := ResolveAmong(lib, versions, Some(LATEST)).entry;
            var v, u := lib.parse(e.record.version), lib.parse(w);
            && e.status != Yanked
            && u.major <= v.major
            && (u.major == v.major ==> u.minor <= v.minor)
            && (u.major == v.major && u.minor == v.minor ==> u.patch <= v.patch)
  {
    hide Lower, ResolveAmong;
    ResolvesToMaximum(lib, versions, Some(LATEST));
    var u := lib.parse(w);
    assert w in Resolvable(versions) && u in Pool(lib, Resolvable(versions), Some(LATEST)).value;
    NumbersDecide(lib.parse(ResolveAmong(lib, versions, Some(LATEST)).entry.record.version), u);
    PrecedenceIsTotalOrder();
  }

  function WithStatus(versions: map<string, Entry>, v: string, status: Status): map<string, Entry>
    requires v in versions
  {
    versions[v := versions[v].(status := status)]
  }

  /** Yanking a version never raises the answer to `latest` or to a range. */
  lemma YankNeverRaises(lib: Library, versions: map<string, Entry>, v: string, constraint: string)
    requires Canonical(lib, versions.Keys) && Filed(versions) && v in versions
    requires constraint != STABLE && constraint !in versions
    ensures var before := ResolveAmong(lib, versions, Some(constraint));
            var after := ResolveAmong(lib, WithStatus(versions, v, Yanked), Some(constraint));
            && (after.Found? ==>
                  before.Found? && !Lower(lib.parse(before.entry.record.version), lib.parse(after.entry.record.version)))
            && (before.Found? && before.entry.record.version != v ==> after == before)
  {
    hide Lower, ResolveAmong;
    var yanked := WithStatus(versions, v, Yanked);
    var c := Some(constraint);
    assert Resolvable(yanked) == Resolvable(versions) - {v};
    ResolvesToMaximum(lib, versions, c);
    ResolvesToMaximum(lib, yanked, c);
    PrecedenceIsTotalOrder();
    var after, before := ResolveAmong(lib, yanked, c), ResolveAmong(lib, versions, c);
    if after.Found? {
      assert lib.parse(after.entry.record.version) in Pool(lib, Resolvable(versions), c).value;
    }
    if before.Found? && before.entry.record.version != v {
      var b := before.entry.record.version;
      assert lib.parse(b) in Pool(lib, Resolvable(yanked), c).value;
      assert after.Found?;
      var a := after.entry.record.version;
      MaxIsUnique(Pool(lib, Resolvable(yanked), c).value, lib.parse(b), lib.parse(a));
      assert lib.text(lib.parse(b)) == lib.text(lib.parse(a));
    }
  }

  /** A yanked version that was active is restored by the unyank, answer by answer. */
  lemma UnyankRestores(lib: Library, versions: map<string, Entry>, v: string, constraint: Option<string>)
    requires v in versions && versions[v].status == Active
    ensures var yanked := WithStatus(versions, v, Yanked);
            ResolveAmong(lib, WithStatus(yanked, v, Active), constraint) == ResolveAmong(lib, versions, constraint)
  {
    assert WithStatus(WithStatus(versions, v, Yanked), v, Active) == versions;
  }

  /** `v` is the only release still offered, and a higher prerelease is offered. */
  ghost predicate LastReleaseBelowPrerelease(lib: Library, versions: map<string, Entry>, v: string) {
    && v in Resolvable(versions)
    && lib.parse(v).prerelease == []
    && (forall w :: w in Resolvable(versions) && lib.parse(w).prerelease == [] ==> w == v)
    && exists w :: w in Resolvable(versions) && Lower(lib.parse(v), lib.parse(w))
  }

  /** The `stable` channel is not monotone: exactly when yanking raises its answer. */
  lemma YankRaisesStableIff(lib: Library, versions: map<string, Entry>, v: string, constraint: Option<string>)
    requires Canonical(lib, versions.Keys) && Filed(versions) && v in versions
    requires constraint == None || (constraint == Some(STABLE) && STABLE !in versions)
    ensures var before := ResolveAmong(lib, versions, constraint);
            var after := ResolveAmong(lib, WithStatus(versions, v, Yanked), constraint);
            (before.Found? && after.Found?
             && Lower(lib.parse(before.entry.record.version), lib.parse(after.entry.record.version)))
            <==> LastReleaseBelowPrerelease(lib, versions, v)
  {
    if LastReleaseBelowPrerelease(lib, versions, v) {
      LastReleaseYanked(lib, versions, v, constraint);
    } else if ResolveAmong(lib, versions, constraint).Found?
              && ResolveAmong(lib, WithStatus(versions, v, Yanked), constraint).Found? {
      OtherwiseNotRaised(lib, versions, v, constraint);
    }
  }

  lemma OtherwiseNotRaised(lib: Library, versions: map<string, Entry>, v: string, constraint: Option<string>)
    requires Canonical(lib, versions.Keys) && Filed(versions) && v in versions
    requires constraint == None || (constraint == Some(STABLE) && STABLE !in versions)
    requires !LastReleaseBelowPrerelease(lib, versions, v)
    requires ResolveAmong(lib, versions, constraint).Found?
    requires ResolveAmong(lib, WithStatus(versions, v, Yanked), constraint).Found?
    ensures !Lower(lib.parse(ResolveAmong(lib, versions, constraint).entry.record.version),
                   lib.parse(ResolveAmong(lib, WithStatus(versions, v, Yanked), constraint).entry.record.version))
  {
    hide Lower, ResolveAmong;
    var yanked := WithStatus(versions, v, Yanked);
    assert Resolvable(yanked) == Resolvable(versions) - {v};
    ResolvesToMaximum(lib, versions, constraint);
    ResolvesToMaximum(lib, yanked, constraint);
    PrecedenceIsTotalOrder();
    var before := ResolveAmong(lib, versions, constraint).entry.record.version;
    var after := ResolveAmong(lib, yanked, constraint).entry.record.version;
    var offered := set w | w in Resolvable(versions) :: lib.parse(w);
    var left := set w | w in Resolvable(yanked) :: lib.parse(w);
    assert Releases(left) <= Releases(offered);
    if Releases(left) == {} && Releases(offered) != {} {
      // Only `v` can be a release, so nothing offered ranks above it.
      assert lib.parse(before) in Releases(offered);
      forall w | w in Resolvable(versions) && lib.parse(w).prerelease == []
        ensures w == v
      {
        assert w in Resolvable(yanked) ==> lib.parse(w) in Releases(left);
      }
      assert before == v;
    } else {
      assert lib.parse(after) in Pool(lib, Resolvable(versions), constraint).value;
    }
  }

  lemma LastReleasePools(lib: Library, versions: map<string, Entry>, v: string, constraint: Option<string>)
    requires v in versions
    requires constraint == None || (constraint == Some(STABLE) && STABLE !in versions)
    requires LastReleaseBelowPrerelease(lib, versions, v)
    ensures var yanked := WithStatus(versions, v, Yanked);
            && Pool(lib, Resolvable(versions), constraint) == Some({lib.parse(v)})
            && Pool(lib, Resolvable(yanked), constraint) == Some(set w | w in Resolvable(yanked) :: lib.parse(w))
            && Resolvable(yanked) == Resolvable(versions) - {v}
  {
    hide Lower;
    var yanked := WithStatus(versions, v, Yanked);
    assert Resolvable(yanked) == Resolvable(versions) - {v};
    var offered := set w | w in Resolvable(versions) :: lib.parse(w);
    var left := set w | w in Resolvable(yanked) :: lib.parse(w);
    assert lib.parse(v) in Releases(offered);
    assert Releases(offered) == {lib.parse(v)};
    assert Releases(left) == {};
  }

  lemma LastReleaseYanked(lib: Library, versions: map<string, Entry>, v: string, constraint: Option<string>)
    requires Canonical(lib, versions.Keys) && Filed(versions) && v in versions
    requires constraint == None || (constraint == Some(STABLE) && STABLE !in versions)
    requires LastReleaseBelowPrerelease(lib, versions, v)
    ensures var before := ResolveAmong(lib, versions, constraint);
            var after := ResolveAmong(lib, WithStatus(versions, v, Yanked), constraint);
            && before.Found? && after.Found?
            && Lower(lib.parse(before.entry.record.version), lib.parse(after.entry.record.version))
  {
    hide Lower, ResolveAmong, Pool;
    var yanked := WithStatus(versions, v, Yanked);
    LastReleasePools(lib, versions, v, constraint);
    ResolvesToMaximum(lib, versions, constraint);
    ResolvesToMaximum(lib, yanked, constraint);
    PrecedenceIsTotalOrder();
    var w :| w in Resolvable(versions) && Lower(lib.parse(v), lib.parse(w));
    assert w in Resolvable(yanked);
  }

  /** Such versions: yanking 1.0.0 makes `stable` answer the prerelease 2.0.0-a. */
  lemma YankRaisesStableHere(lib: Library, low: Entry, high: Entry)
    requires lib.parse("1.0.0") == Version(1, 0, 0, []) && lib.parse("2.0.0-a") == Version(2, 0, 0, [Alphanumeric("a")])
    requires low.status == Active && high.status == Active
    ensures LastReleaseBelowPrerelease(lib, map["1.0.0" := low, "2.0.0-a" := high], "1.0.0")
  {
    var versions := map["1.0.0" := low, "2.0.0-a" := high];
    assert "2.0.0-a" in Resolvable(versions);
    assert Lower(lib.parse("1.0.0"), lib.parse("2.0.0-a"));
  }

  /** The versions that an index shows for one id. */
  ghost function VersionsOf(index: Index, id: string): map<string, Entry> {
    map v | v in (set k | k in index && k.id == id :: k.version) :: index[Key(id, v)]
  }

  ghost function IdsOf(index: Index): set<string> {
    set k | k in index :: k.id
  }

  /** Every entry sits under its own id and version, and no id is empty. */
  ghost predicate WellFiled(entries: map<string, map<string, Entry>>) {
    && (forall id :: id in entries ==> |entries[id]| > 0)
    && (forall id, v :: id in entries && v in entries[id] ==> entries[id][v].Coordinates() == Key(id, v))
  }

  ghost predicate Shows(entries: map<string, map<string, Entry>>, contents: Index) {
    && (forall k :: k in contents <==> k.id in entries && k.version in entries[k.id])
    && (forall k :: k in contents ==> contents[k] == entries[k.id][k.version])
  }

  function Updated(entries: map<string, map<string, Entry>>, e: Entry): map<string, map<string, Entry>> {
    var inner := if e.record.id in entries then entries[e.record.id] else map[];
    entries[e.record.id := inner[e.record.version := e]]
  }

  lemma UpdateStaysFiled(entries: map<string, map<string, Entry>>, e: Entry)
    requires WellFiled(entries)
    ensures WellFiled(Updated(entries, e))
  {
    assert e.record.version in Updated(entries, e)[e.record.id];
  }

  lemma UpdateShows(entries: map<string, map<string, Entry>>, contents: Index, e: Entry)
    requires Shows(entries, contents)
    ensures Shows(Updated(entries, e), contents[e.Coordinates() := e])
  {
  }

  class InMemoryIndex {
    var entries: map<string, map<string, Entry>>
    var sortedIds: array?<string>
    ghost var Contents: Index

    constructor ()
      ensures Valid() && Contents == map[] && sortedIds == null
    {
      entries, sortedIds, Contents := map[], null, map[];
    }

    ghost predicate Valid()
      reads this, sortedIds
    {
      && WellFiled(entries) && Shows(entries, Contents)
      && (sortedIds != null ==> ListsStrings(sortedIds[..], entries.Keys))
    }

    function Versions(id: string): map<string, Entry>
      reads this
    {
      if id in entries then entries[id] else map[]
    }

    lemma ShownVersions(id: string)
      requires Valid()
      ensures Versions(id) == VersionsOf(Contents, id)
    {
      var shown := VersionsOf(Contents, id);
      forall v
        ensures v in Versions(id) <==> v in shown
        ensures v in shown ==> Versions(id)[v] == shown[v]
      {
        assert v in shown <==> Key(id, v) in Contents;
      }
    }

    lemma ShownIds()
      requires Valid()
      ensures entries.Keys == IdsOf(Contents)
    {
      forall id | id in entries
        ensures id in IdsOf(Contents)
      {
        var v :| v in entries[id];
        assert Key(id, v) in Contents;
      }
    }

    lemma FiledContents()
      requires Valid()
      ensures forall k :: k in Contents ==> Contents[k].Coordinates() == k
    {
    }

    lemma FiledUnderKey(k: Key)
      requires Valid() && k in Contents
      ensures Contents[k].Coordinates() == k
    {
    }

    method Put(entry: Entry)
      requires Valid()
      modifies this
      ensures Valid() && sortedIds == null
      ensures Contents == old(Contents)[entry.Coordinates() := entry]
    {
      hide ListsStrings, WellFiled, Shows, Updated;
      UpdateStaysFiled(entries, entry);
      UpdateShows(entries, Contents, entry);
      entries := Updated(entries, entry);
      sortedIds := null;
      Contents := Contents[entry.Coordinates() := entry];
    }

    function Get(id: string, version: string): (r: Option<Entry>)
      requires Valid()
      reads this, sortedIds
      ensures r == if Key(id, version) in Contents then Some(Contents[Key(id, version)]) else None
    {
      if version in Versions(id) then Some(Versions(id)[version]) else None
    }

    method GetResolved(lib: Library, id: string, constraint: Option<string>) returns (r: Lookup)
      requires Valid()
      ensures r == ResolveAmong(lib, VersionsOf(Contents, id), constraint)
    {
      ShownVersions(id);
      r := ResolveAmong(lib, Versions(id), constraint);
    }

    method ListVersions(id: string) returns (versions: seq<string>)
      requires Valid()
      ensures ListsStrings(versions, VersionsOf(Contents, id).Keys)
    {
      ShownVersions(id);
      versions := SortStrings(Versions(id).Keys);
    }

    /** The caller owns the returned array: writing to it cannot reach the cache. */
    method AllIds() returns (ids: array<string>)
      requires Valid()
      modifies this`sortedIds
      ensures Valid() && fresh(ids) && ids != sortedIds
      ensures sortedIds != null && (old(sortedIds) == sortedIds || fresh(sortedIds))
      ensures ListsStrings(ids[..], IdsOf(Contents))
    {
      hide ListsStrings, WellFiled, Shows;
      ShownIds();
      if sortedIds == null {
        var sorted := SortStrings(entries.Keys);
        sortedIds := ToArray(sorted);
      }
      ids := ToArray(sortedIds[..]);
    }
  }

  method ToArray(xs: seq<string>) returns (a: array<string>)
    ensures fresh(a) && a[..] == xs
  {
    a := new string[|xs|](i requires 0 <= i < |xs| => xs[i]);
  }
}
