/** The metadata store: the media table with its auto-increment id. */
module MediaTable {
  import opened Wrappers
  import opened MediaModel

  class Table {
    /** The rows, in insertion order (the order queries return them in). */
    var records: seq<Media>
    /** The id the next created row receives. */
    var nextId: nat

    ghost predicate Valid()
      reads this
    {
      && 1 <= nextId
      && (forall m :: m in records ==> 1 <= m.id < nextId)
      && UniqueIds(records)
    }

    constructor ()
      ensures Valid() && records == [] && nextId == 1
    {
      records := [];
      nextId := 1;
    }

    /** `create($data)`: appends one row with a fresh id. */
    method Create(modelType: string, modelId: string, media: string, thumbnail: Option<string>,
                  fileType: string, collection: string, disk: string, path: string)
      returns (m: Media)
      requires Valid()
      modifies this
      ensures Valid()
      ensures m == Media(old(nextId), modelType, modelId, media, thumbnail, fileType, collection, disk, path)
      ensures records == old(records) + [m] && nextId == old(nextId) + 1
    {
      m := Media(nextId, modelType, modelId, media, thumbnail, fileType, collection, disk, path);
      records := records + [m];
      nextId := nextId + 1;
    }

    /** `$media->delete()`: removes the row with that id. */
    method Delete(id: nat)
      requires Valid()
      modifies this
      ensures Valid()
      ensures records == RemoveIds(old(records), {id}) && nextId == old(nextId)
    {
      RemoveIdsUnique(records, {id});
      records := RemoveIds(records, {id});
    }

    /** `$media->update($data)` with the media, thumbnail and type columns. */
    method Update(id: nat, media: string, thumbnail: Option<string>, fileType: string)
      requires Valid()
      modifies this
      ensures Valid()
      ensures records == UpdateFields(old(records), id, media, thumbnail, fileType)
      ensures nextId == old(nextId)
    {
      var r := UpdateFields(records, id, media, thumbnail, fileType);
      forall m | m in r ensures 1 <= m.id < nextId {
        var i :| 0 <= i < |r| && r[i] == m;
        assert records[i] in records;
      }
      records := r;
    }
  }
}
