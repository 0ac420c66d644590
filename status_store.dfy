/** `upload_status_db`: the router's in-memory dictionary from file id to a
    status record, which `ingest_file` later updates in place with
    `dict.update`. */
module StatusStore {
  import opened Chunks

  /** One status record (`file_id`, `file_name`, `status`, `chunks_created`,
      and `error` once it failed). */
  type StatusEntry = map<string, Value>

  /** `entry.update(changes)`: the changed keys take their new values, every
      other key keeps its value, and no key is lost. */
  function Updated(entry: StatusEntry, changes: StatusEntry): (r: StatusEntry)
    ensures r.Keys == entry.Keys + changes.Keys
    ensures forall k :: k in changes ==> r[k] == changes[k]
    ensures forall k :: k in entry && k !in changes ==> r[k] == entry[k]
  {
    entry + changes
  }

  /** Updating twice with the same changes is the same as updating once. */
  lemma UpdatedIdempotent(entry: StatusEntry, changes: StatusEntry)
    ensures Updated(Updated(entry, changes), changes) == Updated(entry, changes)
  {
  }

  class StatusDb {
    var entries: map<string, StatusEntry>

    constructor ()
      ensures entries == map[]
    {
      entries := map[];
    }

    /** `status_dict[file_id].update(changes)`; `found` is false when the
        lookup raises `KeyError`, and then nothing changes. */
    method Update(fileId: string, changes: StatusEntry) returns (found: bool)
      modifies this
      ensures found <==> fileId in old(entries)
      ensures entries == if found then old(entries)[fileId := Updated(old(entries)[fileId], changes)] else old(entries)
    {
      found := fileId in entries;
      if found {
        entries := entries[fileId := Updated(entries[fileId], changes)];
      }
    }
  }
}
