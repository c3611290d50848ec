/**
 * The storage backend, as the media trait uses it: per disk, a flat key
 * space of blobs plus the directories that were created.
 */
module Storage {

  type Bytes = seq<bv8>

  /** A location on a named disk. */
  datatype BlobKey = BlobKey(disk: string, key: string)

  class BlobStore {
    var blobs: map<BlobKey, Bytes>
    var dirs: set<BlobKey>

    constructor ()
      ensures blobs == map[] && dirs == {}
    {
      blobs := map[];
      dirs := {};
    }

    /** `exists(key)`: a file or a directory is present at that location. */
    function Exists(disk: string, key: string): (b: bool)
      reads this
      ensures BlobKey(disk, key) in blobs ==> b
      ensures !b ==> BlobKey(disk, key) !in blobs && BlobKey(disk, key) !in dirs
    {
      BlobKey(disk, key) in blobs || BlobKey(disk, key) in dirs
    }

    /** `makeDirectory(key)`. */
    method MakeDirectory(disk: string, key: string)
      modifies this
      ensures dirs == old(dirs) + {BlobKey(disk, key)}
      ensures blobs == old(blobs)
    {
      dirs := dirs + {BlobKey(disk, key)};
    }

    /** `put(key, contents)`: writes or overwrites one blob. */
    method Put(disk: string, key: string, contents: Bytes)
      modifies this
      ensures blobs == old(blobs)[BlobKey(disk, key) := contents]
      ensures dirs == old(dirs)
    {
      blobs := blobs[BlobKey(disk, key) := contents];
    }

    /** `delete(key)`: removes one blob (it leaves directories alone). */
    method Delete(disk: string, key: string)
      modifies this
      ensures blobs == old(blobs) - {BlobKey(disk, key)}
      ensures dirs == old(dirs)
    {
      blobs := blobs - {BlobKey(disk, key)};
    }
  }
}
