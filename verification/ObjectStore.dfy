/** The object store: write-once blobs and tags, overwritable sidecars. */
module ObjectStore {
  import opened Registry

  type Bytes = seq<bv8>

  class LocalFilesystemStore {
    var blobs: map<string, Bytes>
    var tags: map<Key, Record>
    var statuses: map<Key, Status>
    var governance: map<string, Governance>

    constructor ()
      ensures Valid() && blobs == map[] && Snapshot() == Storage(map[], map[], map[])
    {
      blobs, tags, statuses, governance := map[], map[], map[], map[];
    }

    function Snapshot(): Storage
      reads this
    {
      Storage(tags, statuses, governance)
    }

    ghost predicate Valid()
      reads this
    {
      Snapshot().Filed()
    }

    /** Content-addressed: a second write of the same key is ignored. */
    method WriteBlobIfAbsent(digest: string, data: Bytes)
      modifies this`blobs
      ensures digest in blobs
      ensures digest in old(blobs) ==> blobs == old(blobs)
      ensures digest !in old(blobs) ==> blobs == old(blobs)[digest := data]
    {
      if digest !in blobs {
        blobs := blobs[digest := data];
      }
    }

    /** Exclusive creation: fails when the version has been published before. */
    method WriteTagIfAbsent(record: Record) returns (created: bool)
      requires Valid()
      modifies this`tags
      ensures Valid()
      ensures created <==> record.Coordinates() !in old(tags)
      ensures created ==> tags == old(tags)[record.Coordinates() := record]
      ensures !created ==> tags == old(tags)
    {
      created := record.Coordinates() !in tags;
      if created {
        tags := tags[record.Coordinates() := record];
      }
    }

    method WriteStatus(k: Key, status: Status)
      modifies this`statuses
      ensures statuses == old(statuses)[k := status]
    {
      statuses := statuses[k := status];
    }

    method WriteGovernance(id: string, record: Governance)
      modifies this`governance
      ensures governance == old(governance)[id := record]
    {
      governance := governance[id := record];
    }
  }
}
