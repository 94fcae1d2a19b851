/** Rebuilding an index from storage, and repairing one that has drifted. */
module Reconciliation {
  import opened Ordering
  import opened Registry
  import opened IndexStore
  import opened ObjectStore
  import opened Text

  /** Reads every tag with its two sidecars into a fresh index. */
  method BootstrapIndex(store: LocalFilesystemStore) returns (index: InMemoryIndex)
    requires store.Valid()
    ensures fresh(index) && index.Valid() && index.sortedIds == null
    ensures index.Contents == store.Snapshot().View()
  {
    hide InMemoryIndex.Valid;
    index := new InMemoryIndex();
    ghost var truth := store.Snapshot().View();
    var rest := store.tags.Keys;
    assert Overlaid(map[], truth, {}) == map[];
    while rest != {}
      invariant fresh(index) && index.Valid() && index.sortedIds == null
      invariant rest <= store.tags.Keys
      invariant index.Contents == Overlaid(map[], truth, store.tags.Keys - rest)
      decreases rest
    {
      var k :| k in rest;
      var entry := ReadEntry(store, k);
      OverlayStep(map[], truth, store.tags.Keys - rest, k);
      assert store.tags.Keys - (rest - {k}) == store.tags.Keys - rest + {k};
      index.Put(entry);
      rest := rest - {k};
    }
    assert store.tags.Keys - rest == truth.Keys;
    assert Overlaid(map[], truth, truth.Keys) == truth;
  }

  /** One tag with its status and governance sidecars. */
  method ReadEntry(store: LocalFilesystemStore, k: Key) returns (entry: Entry)
    requires store.Valid() && k in store.tags
    ensures entry == store.Snapshot().View()[k] && entry.Coordinates() == k
  {
    var storage := store.Snapshot();
    entry := Parsed(store.tags[k]);
    entry := ApplyStatus(entry, storage.StatusOf(entry.Coordinates()));
    entry := ApplyGovernance(entry, storage.GovernanceOf(entry.record.id));
  }

  function Part(id: string, version: string, digest: string): string {
    id + "@" + version + ":" + digest
  }

  ghost function PartsOfId(index: Index, id: string, versions: seq<string>): seq<string> {
    if versions == [] then []
    else
      var front, v := versions[..|versions| - 1], versions[|versions| - 1];
      PartsOfId(index, id, front) +
      (if Key(id, v) in index then [Part(id, v, index[Key(id, v)].record.digest)] else [])
  }

  ghost function Parts(index: Index, ids: seq<string>): seq<string> {
    if ids == [] then []
    else
      var front, id := ids[..|ids| - 1], ids[|ids| - 1];
      Parts(index, front) + PartsOfId(index, id, Sorted(VersionsOf(index, id).Keys))
  }

  /** The digest-only fingerprint of the given ids of an index, for any hash of its text. */
  ghost function ListedChecksum(hash: string -> string, index: Index, ids: set<string>): string {
    hash(Join(Parts(index, Sorted(ids)), '|'))
  }

  /** The fingerprint of the whole index. */
  ghost function Checksum(hash: string -> string, index: Index): string {
    ListedChecksum(hash, index, IdsOf(index))
  }

  method ComputeChecksum(hash: string -> string, index: InMemoryIndex) returns (checksum: string)
    requires index.Valid()
    modifies index`sortedIds
    ensures index.Valid()
    ensures index.sortedIds == old(index.sortedIds) || fresh(index.sortedIds)
    ensures checksum == Checksum(hash, index.Contents)
  {
    hide InMemoryIndex.Valid, ListsStrings;
    var listed := index.AllIds();
    var ids := listed[..];
    ghost var shown := index.Contents;
    ListingIsSorted(ids, IdsOf(shown));
    var parts: seq<string> := [];
    for i := 0 to |ids|
      invariant index.Valid() && index.Contents == shown
      invariant index.sortedIds == old(index.sortedIds) || fresh(index.sortedIds)
      invariant parts == Parts(shown, ids[..i])
    {
      var ofId := PartsListed(index, ids[i]);
      assert ids[..i + 1][..i] == ids[..i];
      parts := parts + ofId;
    }
    assert ids[..|ids|] == ids;
    checksum := hash(Join(parts, '|'));
  }

  method PartsListed(index: InMemoryIndex, id: string) returns (parts: seq<string>)
    requires index.Valid()
    ensures parts == PartsOfId(index.Contents, id, Sorted(VersionsOf(index.Contents, id).Keys))
  {
    hide InMemoryIndex.Valid, ListsStrings;
    var versions := index.ListVersions(id);
    ListingIsSorted(versions, VersionsOf(index.Contents, id).Keys);
    parts := [];
    for j := 0 to |versions|
      invariant parts == PartsOfId(index.Contents, id, versions[..j])
    {
      assert versions[..j + 1][..j] == versions[..j];
      assert versions[j] in VersionsOf(index.Contents, id);
      var entry := index.Get(id, versions[j]);
      parts := parts + [Part(id, versions[j], entry.value.record.digest)];
    }
    assert versions[..|versions|] == versions;
  }

  datatype Report = Report(repaired: seq<Key>, checksumBefore: string, checksumAfter: string)
  {
    predicate DriftDetected() { checksumBefore != checksumAfter }
  }

  /** `before` with the entries of `truth` at `done` put over it. */
  ghost function Overlaid(before: Index, truth: Index, done: set<Key>): Index {
    map k | k in before.Keys + (truth.Keys * done) :: if k in truth && k in done then truth[k] else before[k]
  }

  ghost predicate Differs(index: Index, truth: Index, k: Key) {
    k in truth && !(k in index && index[k] == truth[k])
  }

  /** `repaired` names exactly the differing keys among `done`, each once. */
  ghost predicate NamesRepairs(repaired: seq<Key>, before: Index, truth: Index, done: set<Key>) {
    && (forall i, j :: 0 <= i < j < |repaired| ==> repaired[i] != repaired[j])
    && forall k :: k in repaired <==> k in done && Differs(before, truth, k)
  }

  lemma OverlayStep(before: Index, truth: Index, done: set<Key>, k: Key)
    requires k in truth && k !in done
    ensures Overlaid(before, truth, done + {k}) == Overlaid(before, truth, done)[k := truth[k]]
    ensures Differs(Overlaid(before, truth, done), truth, k) <==> Differs(before, truth, k)
    ensures !Differs(before, truth, k) ==> Overlaid(before, truth, done + {k}) == Overlaid(before, truth, done)
  {
  }

  lemma NamesStep(repaired: seq<Key>, before: Index, truth: Index, done: set<Key>, k: Key)
    requires NamesRepairs(repaired, before, truth, done) && k !in done
    ensures NamesRepairs(if Differs(before, truth, k) then repaired + [k] else repaired, before, truth, done + {k})
  {
  }

  ghost function Scanned(ids: seq<string>, truth: Index): set<Key> {
    set k | k in truth && k.id in ids
  }

  ghost function ScannedOf(id: string, versions: seq<string>): set<Key> {
    set v | v in versions :: Key(id, v)
  }

  /** Overwrites every entry that does not match storage and reports which. */
  method Reconcile(hash: string -> string, index: InMemoryIndex, store: LocalFilesystemStore) returns (report: Report)
    requires index.Valid() && store.Valid()
    modifies index
    ensures index.Valid()
    ensures index.Contents == old(index.Contents) + store.Snapshot().View()
    ensures forall i, j :: 0 <= i < j < |report.repaired| ==> report.repaired[i] != report.repaired[j]
    ensures forall k :: k in report.repaired <==> Differs(old(index.Contents), store.Snapshot().View(), k)
    ensures report.checksumBefore == Checksum(hash, old(index.Contents))
    ensures report.checksumAfter == Checksum(hash, index.Contents)
    ensures Injective(hash) && Printable(old(index.Contents)) && Printable(store.Snapshot().View()) ==>
              (report.DriftDetected() <==> DigestsDiffer(old(index.Contents), store.Snapshot().View()))
  {
    hide InMemoryIndex.Valid, ListsStrings, Storage.View, Storage.ViewOf, Overlaid, NamesRepairs, Checksum, Scanned,
         Injective, Printable, DigestsDiffer;
    ghost var before := index.Contents;
    var checksumBefore := ComputeChecksum(hash, index);
    var authoritative := BootstrapIndex(store);
    ghost var truth := authoritative.Contents;
    var listed := authoritative.AllIds();
    var ids := listed[..];
    var repaired: seq<Key> := [];
    NothingScanned(before, truth, ids);
    for i := 0 to |ids|
      invariant index.Valid() && authoritative.Valid() && authoritative.Contents == truth
      invariant index.sortedIds == null || index.sortedIds != authoritative.sortedIds
      invariant index.Contents == Overlaid(before, truth, Scanned(ids[..i], truth))
      invariant NamesRepairs(repaired, before, truth, Scanned(ids[..i], truth))
    {
      NewId(ids, i, truth);
      repaired := ReconcileId(index, authoritative, ids[i], repaired, before, Scanned(ids[..i], truth));
      WholeId(ids, i, truth);
    }
    assert ids[..|ids|] == ids;
    AllScanned(ids, before, truth, repaired);
    var checksumAfter := ComputeChecksum(hash, index);
    report := Report(repaired, checksumBefore, checksumAfter);
    if Injective(hash) && Printable(before) && Printable(truth) {
      DriftIff(hash, before, truth);
    }
  }

  /** The inner loop of `Reconcile`: all stored versions of one id. */
  method ReconcileId(index: InMemoryIndex, authoritative: InMemoryIndex, id: string, repaired: seq<Key>,
                     ghost before: Index, ghost done: set<Key>)
    returns (extended: seq<Key>)
    requires index.Valid() && authoritative.Valid() && index != authoritative
    requires index.sortedIds == null || index.sortedIds != authoritative.sortedIds
    requires index.Contents == Overlaid(before, authoritative.Contents, done)
    requires NamesRepairs(repaired, before, authoritative.Contents, done)
    requires forall k :: k in done ==> k.id != id
    modifies index
    ensures index.Valid()
    ensures index.sortedIds == null || index.sortedIds == old(index.sortedIds)
    ensures index.Contents == Overlaid(before, authoritative.Contents, done + KeysOf(authoritative.Contents, id))
    ensures NamesRepairs(extended, before, authoritative.Contents, done + KeysOf(authoritative.Contents, id))
  {
    hide InMemoryIndex.Valid, ListsStrings, Overlaid, NamesRepairs;
    ghost var truth := authoritative.Contents;
    var versions := authoritative.ListVersions(id);
    extended := repaired;
    assert done + ScannedOf(id, versions[..0]) == done;
    for j := 0 to |versions|
      invariant index.Valid() && authoritative.Valid() && authoritative.Contents == truth
      invariant index.sortedIds == null || index.sortedIds == old(index.sortedIds)
      invariant index.Contents == Overlaid(before, truth, done + ScannedOf(id, versions[..j]))
      invariant NamesRepairs(extended, before, truth, done + ScannedOf(id, versions[..j]))
    {
      ghost var k := Key(id, versions[j]);
      ghost var sofar := done + ScannedOf(id, versions[..j]);
      NewVersion(id, versions, j, truth, done);
      OverlayStep(before, truth, sofar, k);
      NamesStep(extended, before, truth, sofar, k);
      assert done + ScannedOf(id, versions[..j + 1]) == sofar + {k};
      var entry := authoritative.Get(id, versions[j]);
      if index.Get(id, versions[j]) != entry {
        authoritative.FiledUnderKey(k);
        index.Put(entry.value);
        extended := extended + [Key(id, versions[j])];
      }
    }
    assert versions[..|versions|] == versions;
    VersionsAreKeys(id, versions, truth);
  }

  ghost function KeysOf(index: Index, id: string): set<Key> {
    set k | k in index && k.id == id
  }

  lemma VersionsAreKeys(id: string, versions: seq<string>, truth: Index)
    requires ListsStrings(versions, VersionsOf(truth, id).Keys)
    ensures ScannedOf(id, versions) == KeysOf(truth, id)
  {
    forall k
      ensures k in ScannedOf(id, versions) <==> k in KeysOf(truth, id)
    {
      if k.id == id {
        assert k == Key(id, k.version);
        assert k in truth <==> k.version in VersionsOf(truth, id);
      }
    }
  }

  lemma NothingScanned(before: Index, truth: Index, ids: seq<string>)
    ensures Scanned(ids[..0], truth) == {}
    ensures Overlaid(before, truth, {}) == before
    ensures NamesRepairs([], before, truth, {})
  {
  }

  lemma NewId(ids: seq<string>, i: nat, truth: Index)
    requires ListsStrings(ids, IdsOf(truth)) && i < |ids|
    ensures forall k :: k in Scanned(ids[..i], truth) ==> k.id != ids[i]
  {
    StringLessIsStrictOrder();
    forall h | 0 <= h < i
      ensures ids[h] != ids[i]
    {
      assert StringLess(ids[h], ids[i]);
    }
  }

  lemma NewVersion(id: string, versions: seq<string>, j: nat, truth: Index, earlier: set<Key>)
    requires ListsStrings(versions, VersionsOf(truth, id).Keys) && j < |versions|
    requires forall k :: k in earlier ==> k.id != id
    ensures Key(id, versions[j]) in truth
    ensures Key(id, versions[j]) !in earlier + ScannedOf(id, versions[..j])
    ensures ScannedOf(id, versions[..j + 1]) == ScannedOf(id, versions[..j]) + {Key(id, versions[j])}
  {
    StringLessIsStrictOrder();
    assert versions[j] in VersionsOf(truth, id);
    forall h | 0 <= h < j
      ensures versions[h] != versions[j]
    {
      assert StringLess(versions[h], versions[j]);
    }
    assert versions[..j + 1] == versions[..j] + [versions[j]];
  }

  lemma WholeId(ids: seq<string>, i: nat, truth: Index)
    requires i < |ids|
    ensures Scanned(ids[..i + 1], truth) == Scanned(ids[..i], truth) + KeysOf(truth, ids[i])
  {
    assert ids[..i + 1] == ids[..i] + [ids[i]];
  }

  lemma AllScanned(ids: seq<string>, before: Index, truth: Index, repaired: seq<Key>)
    requires ListsStrings(ids, IdsOf(truth))
    requires NamesRepairs(repaired, before, truth, Scanned(ids, truth))
    ensures Overlaid(before, truth, Scanned(ids, truth)) == before + truth
    ensures forall i, j :: 0 <= i < j < |repaired| ==> repaired[i] != repaired[j]
    ensures forall k :: k in repaired <==> Differs(before, truth, k)
  {
    forall k | k in truth
      ensures k in Scanned(ids, truth)
    {
      assert k.id in IdsOf(truth);
    }
  }

  /** A second run over an unchanged store finds nothing left to repair. */
  lemma SecondRunRepairsNothing(before: Index, truth: Index)
    ensures forall k :: !Differs(before + truth, truth, k)
    ensures before + truth + truth == before + truth
  {
  }

  /** Two runs in a row: the second repairs nothing and reports no drift. */
  method ReconcileTwice(hash: string -> string, index: InMemoryIndex, store: LocalFilesystemStore)
    returns (first: Report, second: Report)
    requires index.Valid() && store.Valid()
    modifies index
    ensures index.Valid()
    ensures index.Contents == old(index.Contents) + store.Snapshot().View()
    ensures second.repaired == [] && !second.DriftDetected()
  {
    hide InMemoryIndex.Valid, Storage.View, Checksum, Injective, Printable, DigestsDiffer;
    ghost var before, truth := index.Contents, store.Snapshot().View();
    first := Reconcile(hash, index, store);
    second := Reconcile(hash, index, store);
    SecondRunRepairsNothing(before, truth);
    EmptyOrNot(second.repaired);
  }

  lemma EmptyOrNot(keys: seq<Key>)
    ensures keys == [] || exists k :: k in keys
  {
    if keys != [] {
      assert keys[0] in keys;
    }
  }

  /** An index that holds only published versions is brought exactly to the truth. */
  lemma ReconciledIsTruth(before: Index, truth: Index)
    requires before.Keys <= truth.Keys
    ensures before + truth == truth
  {
  }

  lemma NothingDiffers(before: Index, truth: Index)
    requires forall k :: !Differs(before, truth, k)
    ensures before + truth == before
  {
    forall k | k in truth
      ensures k in before && before[k] == truth[k]
    {
      assert !Differs(before, truth, k);
    }
  }

  lemma {:induction false} SamePartsOfId(a: Index, b: Index, id: string, versions: seq<string>)
    requires a.Keys == b.Keys && forall k :: k in a ==> a[k].record.digest == b[k].record.digest
    ensures PartsOfId(a, id, versions) == PartsOfId(b, id, versions)
    decreases |versions|
  {
    if versions != [] {
      SamePartsOfId(a, b, id, versions[..|versions| - 1]);
    }
  }

  lemma {:induction false} SameParts(a: Index, b: Index, ids: seq<string>)
    requires a.Keys == b.Keys && forall k :: k in a ==> a[k].record.digest == b[k].record.digest
    ensures Parts(a, ids) == Parts(b, ids)
    decreases |ids|
  {
    if ids != [] {
      SameParts(a, b, ids[..|ids| - 1]);
      var id := ids[|ids| - 1];
      assert VersionsOf(a, id).Keys == VersionsOf(b, id).Keys;
      SamePartsOfId(a, b, id, Sorted(VersionsOf(a, id).Keys));
    }
  }

  lemma SameDigestsSameChecksum(hash: string -> string, a: Index, b: Index)
    requires a.Keys == b.Keys && forall k :: k in a ==> a[k].record.digest == b[k].record.digest
    ensures Checksum(hash, a) == Checksum(hash, b)
  {
    assert IdsOf(a) == IdsOf(b);
    SameParts(a, b, Sorted(IdsOf(a)));
  }

  // Exactly what the checksum tells apart.

  ghost predicate Injective(hash: string -> string) {
    forall s, t :: hash(s) == hash(t) ==> s == t
  }

  /** Validated ids, versions and digests do not hold the separators. */
  ghost predicate Printable(index: Index) {
    forall k :: k in index ==> '@' !in k.id && '|' !in k.id && ':' !in k.version && '|' !in k.version && '|' !in index[k].record.digest
  }

  /** A stored version is missing from the index or shown with another digest. */
  ghost predicate DigestsDiffer(index: Index, truth: Index) {
    exists k :: k in truth && !(k in index && index[k].record.digest == truth[k].record.digest)
  }

  ghost predicate HasPart(index: Index, p: string, k: Key) {
    k in index && p == Part(k.id, k.version, index[k].record.digest)
  }

  lemma {:induction false} PartsOfIdHold(index: Index, id: string, versions: seq<string>, p: string)
    ensures p in PartsOfId(index, id, versions) <==> exists v :: v in versions && HasPart(index, p, Key(id, v))
    decreases |versions|
  {
    if versions != [] {
      var front, v := versions[..|versions| - 1], versions[|versions| - 1];
      PartsOfIdHold(index, id, front, p);
      assert versions == front + [v];
    }
  }

  lemma {:induction false} PartsHold(index: Index, ids: seq<string>, p: string)
    ensures p in Parts(index, ids) <==> exists k: Key :: k.id in ids && HasPart(index, p, k)
    decreases |ids|
  {
    hide PartsOfId, Part;
    if ids != [] {
      var front, id := ids[..|ids| - 1], ids[|ids| - 1];
      PartsHold(index, front, p);
      assert ids == front + [id];
      var versions := Sorted(VersionsOf(index, id).Keys);
      PartsOfIdHold(index, id, versions, p);
      forall k: Key | k.id == id && HasPart(index, p, k)
        ensures k.version in versions && k == Key(id, k.version)
      {
        assert k.version in VersionsOf(index, id);
      }
    }
  }

  lemma AllPartsHold(index: Index, p: string)
    ensures p in Parts(index, Sorted(IdsOf(index))) <==> exists k :: HasPart(index, p, k)
  {
    PartsHold(index, Sorted(IdsOf(index)), p);
    forall k | k in index
      ensures k.id in Sorted(IdsOf(index))
    {
      assert k.id in IdsOf(index);
    }
  }

  lemma PartsAreDistinct(a: Index, b: Index, k: Key, q: Key)
    requires Printable(a) && Printable(b) && k in a && q in b
    requires Part(k.id, k.version, a[k].record.digest) == Part(q.id, q.version, b[q].record.digest)
    ensures k == q && a[k].record.digest == b[q].record.digest
  {
    var d, e := a[k].record.digest, b[q].record.digest;
    assert Part(k.id, k.version, d) == k.id + ['@'] + (k.version + [':'] + d);
    assert Part(q.id, q.version, e) == q.id + ['@'] + (q.version + [':'] + e);
    SameHead(k.id, q.id, k.version + [':'] + d, q.version + [':'] + e, '@');
    SameHead(k.version, q.version, d, e, ':');
  }

  lemma PartHasNoSeparator(index: Index, p: string, k: Key)
    requires Printable(index) && HasPart(index, p, k)
    ensures '|' !in p && |p| >= 2
  {
  }

  /** Parts without the separator can be read back from the joined text. */
  lemma SameTextSameParts(a: Index, b: Index, x: seq<string>, y: seq<string>)
    requires Printable(a) && Printable(b) && Join(Parts(a, x), '|') == Join(Parts(b, y), '|')
    ensures Parts(a, x) == Parts(b, y)
  {
    hide HasPart, Printable, Parts;
    var p, q := Parts(a, x), Parts(b, y);
    PartsAreClean(a, x);
    PartsAreClean(b, y);
    if p != [] && q != [] {
      SplitJoin(p, '|');
      SplitJoin(q, '|');
    } else if p != [] {
      JoinIsNotEmpty(p);
    } else if q != [] {
      JoinIsNotEmpty(q);
    }
  }

  lemma PartsAreClean(index: Index, ids: seq<string>)
    requires Printable(index)
    ensures forall p :: p in Parts(index, ids) ==> '|' !in p && |p| >= 2
  {
    hide HasPart, Printable, Parts;
    forall p | p in Parts(index, ids)
      ensures '|' !in p && |p| >= 2
    {
      PartsHold(index, ids, p);
      var k: Key :| k.id in ids && HasPart(index, p, k);
      PartHasNoSeparator(index, p, k);
    }
  }

  lemma JoinIsNotEmpty(pieces: seq<string>)
    requires pieces != [] && forall p :: p in pieces ==> |p| >= 2
    ensures Join(pieces, '|') != ""
  {
    assert pieces[0] in pieces;
  }

  /** Equal checksums mean the same versions with the same digests, and conversely. */
  lemma SameChecksumIff(hash: string -> string, a: Index, b: Index)
    requires Injective(hash) && Printable(a) && Printable(b)
    ensures Checksum(hash, a) == Checksum(hash, b)
            <==> a.Keys == b.Keys && forall k :: k in a ==> a[k].record.digest == b[k].record.digest
  {
    hide Parts;
    if Checksum(hash, a) == Checksum(hash, b) {
      SameTextSameParts(a, b, Sorted(IdsOf(a)), Sorted(IdsOf(b)));
      PartsDetermineDigests(a, b);
      PartsDetermineDigests(b, a);
    }
    if a.Keys == b.Keys && forall k :: k in a ==> a[k].record.digest == b[k].record.digest {
      SameDigestsSameChecksum(hash, a, b);
    }
  }

  lemma PartsDetermineDigests(a: Index, b: Index)
    requires Printable(a) && Printable(b)
    requires Parts(a, Sorted(IdsOf(a))) == Parts(b, Sorted(IdsOf(b)))
    ensures forall k :: k in a ==> k in b && a[k].record.digest == b[k].record.digest
  {
    hide Parts, Printable, Part;
    forall k | k in a
      ensures k in b && a[k].record.digest == b[k].record.digest
    {
      var p := Part(k.id, k.version, a[k].record.digest);
      assert HasPart(a, p, k);
      AllPartsHold(a, p);
      AllPartsHold(b, p);
      var q :| HasPart(b, p, q);
      PartsAreDistinct(a, b, k, q);
    }
  }

  /** Of one index, two listings give the same checksum exactly when they hold the same ids. */
  lemma ListedChecksumIff(hash: string -> string, index: Index, a: set<string>, b: set<string>)
    requires Injective(hash) && Printable(index) && a <= IdsOf(index) && b <= IdsOf(index)
    ensures ListedChecksum(hash, index, a) == ListedChecksum(hash, index, b) <==> a == b
  {
    hide Parts, Printable;
    if ListedChecksum(hash, index, a) == ListedChecksum(hash, index, b) {
      SameTextSameParts(index, index, Sorted(a), Sorted(b));
      PartsDetermineIds(index, a, b);
      PartsDetermineIds(index, b, a);
    }
  }

  lemma PartsDetermineIds(index: Index, a: set<string>, b: set<string>)
    requires Printable(index) && a <= IdsOf(index) && Parts(index, Sorted(a)) == Parts(index, Sorted(b))
    ensures a <= b
  {
    hide Parts, Printable, Part;
    forall id | id in a
      ensures id in b
    {
      var k :| k in index && k.id == id;
      var p := Part(k.id, k.version, index[k].record.digest);
      assert HasPart(index, p, k);
      SortedHolds(a);
      SortedHolds(b);
      PartsHold(index, Sorted(a), p);
      PartsHold(index, Sorted(b), p);
      var q: Key :| q.id in Sorted(b) && HasPart(index, p, q);
      PartsAreDistinct(index, index, k, q);
    }
  }

  lemma SortedHolds(s: set<string>)
    ensures forall x :: x in Sorted(s) <==> x in s
  {
  }

  /** Drift is reported exactly when a stored version was missing or had another digest. */
  lemma DriftIff(hash: string -> string, before: Index, truth: Index)
    requires Injective(hash) && Printable(before) && Printable(truth)
    ensures Checksum(hash, before) != Checksum(hash, before + truth) <==> DigestsDiffer(before, truth)
  {
    hide Checksum, Injective;
    assert Printable(before + truth);
    SameChecksumIff(hash, before, before + truth);
  }

  /** The drift flag is blind to sidecars: when the index already holds every
      published version, a missed yank or governance update is repaired but
      never reported as drift. */
  lemma DriftIsBlindToSidecars(hash: string -> string, before: Index, truth: Index)
    requires before.Keys == truth.Keys
    requires forall k :: k in before ==> before[k].record == truth[k].record
    ensures Checksum(hash, before) == Checksum(hash, before + truth)
    ensures (exists k :: Differs(before, truth, k)) <==> before != truth
  {
    ReconciledIsTruth(before, truth);
    SameDigestsSameChecksum(hash, before, truth);
    if forall k :: !Differs(before, truth, k) {
      NothingDiffers(before, truth);
    }
  }
}
