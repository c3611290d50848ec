/**
 * The media trait: the per-owner upload configuration and the operations
 * that store, replace, delete and list an owner's media.
 */
module MediaTrait {
  import opened Wrappers
  import opened Php
  import opened MediaModel
  import opened Storage
  import opened MediaTable
  import opened Naming
  import opened Projection
  import opened Lifecycle

  /** An uploaded file: its client-side extension and its bytes. */
  datatype Upload = Upload(extension: string, contents: Bytes)

  /** The trait's configuration fields, as one value. */
  datatype Settings = Settings(
    disk: string,
    name: Option<string>,
    file: Option<Upload>,
    collection: string,
    thumbnail: bool,
    thumbnailWidth: Option<int>,
    thumbnailHeight: Option<int>)

  /** The body every delete runs per row: each blob only if present, then the row. */
  method DeleteItem(storage: BlobStore, table: Table, item: Media)
    requires table.Valid()
    modifies storage, table
    ensures table.Valid()
    ensures storage.blobs == old(storage.blobs) - BlobKeys(item) && storage.dirs == old(storage.dirs)
    ensures table.records == RemoveIds(old(table.records), {item.id}) && table.nextId == old(table.nextId)
  {
    if storage.Exists(item.disk, item.path + item.media) {
      storage.Delete(item.disk, item.path + item.media);
    }
    if OptTruthy(item.thumbnail) {
      if storage.Exists(item.disk, item.path + item.thumbnail.value) {
        storage.Delete(item.disk, item.path + item.thumbnail.value);
      }
    }
    table.Delete(item.id);
  }

  /** `$items->each(...)` with the delete body: removes the rows and the blobs they refer to. */
  method DeleteEach(storage: BlobStore, table: Table, items: seq<Media>)
    requires table.Valid()
    modifies storage, table
    ensures table.Valid()
    ensures storage.blobs == old(storage.blobs) - KeysOf(items) && storage.dirs == old(storage.dirs)
    ensures table.records == RemoveIds(old(table.records), IdsOf(items)) && table.nextId == old(table.nextId)
  {
    RemoveNoIds(table.records);
    var i := 0;
    while i < |items|
      invariant 0 <= i <= |items|
      invariant table.Valid()
      invariant storage.blobs == old(storage.blobs) - KeysOf(items[..i])
      invariant storage.dirs == old(storage.dirs)
      invariant table.records == RemoveIds(old(table.records), IdsOf(items[..i]))
      invariant table.nextId == old(table.nextId)
    {
      KeysOfPrefix(items, i);
      IdsOfPrefix(items, i);
      RemoveIdsUnion(old(table.records), IdsOf(items[..i]), {items[i].id});
      DeleteItem(storage, table, items[i]);
      i := i + 1;
    }
    assert items[..|items|] == items;
  }

  /**
   * The tail of updateMedia: deletes the row's old file and old thumbnail,
   * each only if present, and (the correction) only if it is not a key that
   * was just written.
   */
  method DeleteReplaced(storage: BlobStore, item: Media, written: set<BlobKey>)
    modifies storage
    ensures storage.blobs == old(storage.blobs) - (BlobKeys(item) - written)
    ensures storage.dirs == old(storage.dirs)
  {
    var oldFile := item.path + item.media;
    if storage.Exists(item.disk, oldFile) && BlobKey(item.disk, oldFile) !in written {
      storage.Delete(item.disk, oldFile);
    }
    if OptTruthy(item.thumbnail) {
      var oldThumb := item.path + item.thumbnail.value;
      if storage.Exists(item.disk, oldThumb) && BlobKey(item.disk, oldThumb) !in written {
        storage.Delete(item.disk, oldThumb);
      }
    }
  }

  /** A model that uses the media trait, identified by its morph type and id. */
  class MediaOwner {
    const modelType: string
    const id: string

    var disk: string
    var name: Option<string>
    var file: Option<Upload>
    var collection: string
    var thumbnail: bool
    var thumbnailWidth: Option<int>
    var thumbnailHeight: Option<int>

    function Config(): Settings
      reads this
    {
      Settings(disk, name, file, collection, thumbnail, thumbnailWidth, thumbnailHeight)
    }

    /** A fresh owner carries the trait's field defaults. */
    constructor (modelType: string, id: string)
      ensures this.modelType == modelType && this.id == id
      ensures Config() == Settings("public", None, None, "default", false, None, None)
    {
      this.modelType := modelType;
      this.id := id;
      disk := "public";
      name := None;
      file := None;
      collection := "default";
      thumbnail := false;
      thumbnailWidth := None;
      thumbnailHeight := None;
    }

    // ---- fluent configuration ----

    /** addMedia: the file may be null, in which case a later store fails. */
    method AddMedia(file: Option<Upload>)
      modifies this
      ensures Config() == old(Config()).(file := file)
    {
      this.file := file;
    }

    method WithThumbnail(thumbnailWidth: int := 100, thumbnailHeight: int := 100)
      modifies this
      ensures Config() == old(Config()).(thumbnail := true, thumbnailWidth := Some(thumbnailWidth),
                                         thumbnailHeight := Some(thumbnailHeight))
    {
      thumbnail := true;
      this.thumbnailWidth := Some(thumbnailWidth);
      this.thumbnailHeight := Some(thumbnailHeight);
    }

    method ToDisk(disk: string := "public")
      modifies this
      ensures Config() == old(Config()).(disk := disk)
    {
      this.disk := disk;
    }

    method ToCollection(collection: string := "default")
      modifies this
      ensures Config() == old(Config()).(collection := collection)
    {
      this.collection := collection;
    }

    method WithName(name: Option<string>)
      modifies this
      ensures Config() == old(Config()).(name := name)
    {
      this.name := name;
    }

    // ---- read-only queries ----

    /** `$this->media`: the owner's rows, in table order. */
    function OwnedMedia(table: Table): (r: seq<Media>)
      reads table
      ensures forall m :: m in r <==> m in table.records && m.modelType == modelType && m.modelId == id
    {
      OwnedBy(table.records, modelType, id)
    }

    /** hasMedia: the owner has at least one row. */
    function HasMedia(table: Table): (b: bool)
      reads table
      ensures b <==> exists m :: m in table.records && m.modelType == modelType && m.modelId == id
    {
      var r := OwnedMedia(table);
      assert r != [] ==> r[0] in r;
      r != []
    }

    /**
     * getMedia as written: with no media the library argument is the array `[]`,
     * which transformMedia's Collection parameter refuses; `ok` is false exactly then.
     */
    method GetMedia(table: Table, appUrl: string) returns (ok: bool, r: seq<Descriptor>)
      ensures ok <==> HasMedia(table)
      ensures ok ==> |r| == |OwnedMedia(table)|
      ensures ok ==> forall i :: 0 <= i < |r| ==> r[i] == Describe(appUrl, OwnedMedia(table)[i])
    {
      var arg := LibraryArgument(HasMedia(table), OwnedMedia(table));
      if !AcceptedByTransform(arg) {
        return false, [];
      }
      ok := true;
      r := TransformMedia(appUrl, arg.rows);
    }

    /** The media_library attribute as written: the same projection, and the same refusal, as getMedia. */
    method GetMediaLibraryAttribute(table: Table, appUrl: string) returns (ok: bool, r: seq<Descriptor>)
      ensures ok <==> HasMedia(table)
      ensures ok ==> |r| == |OwnedMedia(table)|
      ensures ok ==> forall i :: 0 <= i < |r| ==> r[i] == Describe(appUrl, OwnedMedia(table)[i])
    {
      var arg := LibraryArgument(HasMedia(table), OwnedMedia(table));
      if !AcceptedByTransform(arg) {
        return false, [];
      }
      ok := true;
      r := TransformMedia(appUrl, arg.rows);
    }

    /** The library as intended: every owner gets one, empty exactly when it has no media. */
    method GetMediaOrEmpty(table: Table, appUrl: string) returns (r: seq<Descriptor>)
      ensures |r| == |OwnedMedia(table)|
      ensures forall i :: 0 <= i < |r| ==> r[i] == Describe(appUrl, OwnedMedia(table)[i])
      ensures r == [] <==> !HasMedia(table)
    {
      r := TransformMedia(appUrl, OwnedMedia(table));
    }

    /** mediaFromCollection: the owner's rows of one collection, projected. */
    method MediaFromCollection(table: Table, appUrl: string, collection: string) returns (r: seq<Descriptor>)
      ensures |r| == |FromCollection(OwnedMedia(table), collection)|
      ensures forall i :: 0 <= i < |r| ==> r[i] == Describe(appUrl, FromCollection(OwnedMedia(table), collection)[i])
      ensures forall i :: 0 <= i < |r| ==> r[i].collection == collection
    {
      var items := FromCollection(OwnedMedia(table), collection);
      r := TransformMedia(appUrl, items);
      forall i | 0 <= i < |r| ensures r[i].collection == collection {
        assert items[i] in items;
      }
    }

    /** mediaFromDisk: the owner's rows on one disk, projected; every URL carries that disk's prefix. */
    method MediaFromDisk(table: Table, appUrl: string, disk: string) returns (r: seq<Descriptor>)
      ensures |r| == |FromDisk(OwnedMedia(table), disk)|
      ensures forall i :: 0 <= i < |r| ==> r[i] == Describe(appUrl, FromDisk(OwnedMedia(table), disk)[i])
      ensures forall i :: 0 <= i < |r| ==> UrlPrefix(appUrl, disk) <= r[i].media
    {
      var items := FromDisk(OwnedMedia(table), disk);
      r := TransformMedia(appUrl, items);
      forall i | 0 <= i < |r| ensures UrlPrefix(appUrl, disk) <= r[i].media {
        assert items[i] in items;
        UrlRecoversKey(appUrl, disk, items[i].path + items[i].media);
      }
    }

    /** mediaWhereType: the owner's rows of one type, projected. */
    method MediaWhereType(table: Table, appUrl: string, fileType: string) returns (r: seq<Descriptor>)
      ensures |r| == |WhereType(OwnedMedia(table), fileType)|
      ensures forall i :: 0 <= i < |r| ==> r[i] == Describe(appUrl, WhereType(OwnedMedia(table), fileType)[i])
      ensures forall i :: 0 <= i < |r| ==> r[i].fileType == fileType
    {
      var items := WhereType(OwnedMedia(table), fileType);
      r := TransformMedia(appUrl, items);
      forall i | 0 <= i < |r| ensures r[i].fileType == fileType {
        assert items[i] in items;
      }
    }

    // ---- store ----

    /**
     * store: ensures the owner's directory, writes the thumbnail (when
     * requested) and the file under `id/`, and creates one row. Without a
     * file the source fails right after the directory step; `ok` is false then.
     */
    method Store(storage: BlobStore, table: Table, uuid: string, thumbnailImage: Bytes) returns (ok: bool)
      requires table.Valid()
      modifies storage, table
      ensures table.Valid()
      ensures storage.dirs == if old(storage.Exists(disk, "/" + id)) then old(storage.dirs)
                              else old(storage.dirs) + {BlobKey(disk, "/" + id)}
      ensures ok <==> file.Some?
      ensures !ok ==> storage.blobs == old(storage.blobs) && table.records == old(table.records) &&
                      table.nextId == old(table.nextId)
      ensures ok ==>
        var ext := file.value.extension;
        var fileName, thumbName := FileName(uuid, name, ext), ThumbnailName(uuid, name, ext);
        && storage.blobs == StoreBlobs(old(storage.blobs), disk, id, fileName, thumbName, thumbnail,
                                       file.value.contents, thumbnailImage)
        && table.records == old(table.records) +
             [NewRecord(old(table.nextId), modelType, id, disk, collection, thumbnail, fileName, thumbName, ext)]
        && table.nextId == old(table.nextId) + 1
    {
      var folderId := id;
      if !storage.Exists(disk, "/" + folderId) {
        storage.MakeDirectory(disk, "/" + folderId);
      }
      if file.None? {
        return false;
      }
      var extension := file.value.extension;
      var fileName := FileName(uuid, name, extension);
      var thumbnailName := ThumbnailName(uuid, name, extension);
      if thumbnail {
        storage.Put(disk, folderId + "/" + thumbnailName, thumbnailImage);
      }
      storage.Put(disk, folderId + "/" + fileName, file.value.contents);
      var _ := table.Create(modelType, id, fileName, if thumbnail then Some(thumbnailName) else None,
                            extension, collection, disk, folderId + "/");
      ok := true;
    }

    // ---- delete ----

    /**
     * deleteMedia: nothing when the owner has no media; with a truthy id the
     * row of that id (looked up among all rows), its blobs and only those;
     * otherwise every row of the owner and their blobs.
     */
    method DeleteMedia(storage: BlobStore, table: Table, mediaId: Option<nat> := None)
      requires table.Valid()
      modifies storage, table
      ensures table.Valid()
      ensures storage.dirs == old(storage.dirs) && table.nextId == old(table.nextId)
      ensures !old(HasMedia(table)) ==>
        storage.blobs == old(storage.blobs) && table.records == old(table.records)
      ensures old(HasMedia(table)) && IdTruthy(mediaId) ==>
        var found := FindIn(old(table.records), mediaId.value);
        && (found.None? ==> storage.blobs == old(storage.blobs) && table.records == old(table.records))
        && (found.Some? ==> storage.blobs == old(storage.blobs) - BlobKeys(found.value) &&
                            table.records == RemoveIds(old(table.records), {mediaId.value}))
      ensures old(HasMedia(table)) && !IdTruthy(mediaId) ==>
        var items := OwnedBy(old(table.records), modelType, id);
        storage.blobs == old(storage.blobs) - KeysOf(items) &&
        table.records == RemoveIds(old(table.records), IdsOf(items))
    {
      if HasMedia(table) {
        if IdTruthy(mediaId) {
          var found := FindIn(table.records, mediaId.value);
          if found.Some? {
            DeleteItem(storage, table, found.value);
          }
        } else {
          DeleteEach(storage, table, OwnedMedia(table));
        }
      }
    }

    /** deleteCollection: when the owner has media, removes the owner's rows of that collection and their blobs. */
    method DeleteCollection(storage: BlobStore, table: Table, collection: string)
      requires table.Valid()
      modifies storage, table
      ensures table.Valid()
      ensures storage.dirs == old(storage.dirs) && table.nextId == old(table.nextId)
      ensures !old(HasMedia(table)) ==>
        storage.blobs == old(storage.blobs) && table.records == old(table.records)
      ensures old(HasMedia(table)) ==>
        var items := CollectionOf(old(table.records), modelType, id, collection);
        storage.blobs == old(storage.blobs) - KeysOf(items) &&
        table.records == RemoveIds(old(table.records), IdsOf(items))
    {
      if HasMedia(table) {
        var media := Where(OwnedMedia(table), CollectionColumn, collection);
        DeleteEach(storage, table, media);
      }
    }

    // ---- update ----

    /**
     * updateMedia: nothing for an unknown id; otherwise ensures the owner's
     * directory on the row's disk, writes the new thumbnail (when requested)
     * and file under the caller's id, deletes the row's old blobs except one
     * that was just written, and replaces media, thumbnail and type of the row.
     * The width and height are taken and ignored, as in the source.
     */
    method UpdateMedia(storage: BlobStore, table: Table, uuid: string, thumbnailImage: Bytes,
                       file: Upload, mediaId: nat, name: Option<string> := None,
                       withThumbnail: bool := true, thumbnailWidth: int := 100, thumbnailHeight: int := 100)
      requires table.Valid()
      modifies storage, table
      ensures table.Valid() && table.nextId == old(table.nextId)
      ensures FindIn(old(table.records), mediaId).None? ==>
        storage.blobs == old(storage.blobs) && storage.dirs == old(storage.dirs) &&
        table.records == old(table.records)
      ensures FindIn(old(table.records), mediaId).Some? ==>
        var m := FindIn(old(table.records), mediaId).value;
        var fileName, thumbName := FileName(uuid, name, file.extension), ThumbnailName(uuid, name, file.extension);
        && storage.dirs == (if old(storage.Exists(m.disk, "/" + id)) then old(storage.dirs)
                            else old(storage.dirs) + {BlobKey(m.disk, "/" + id)})
        && storage.blobs == UpdateBlobs(old(storage.blobs), m, id, fileName, thumbName, withThumbnail,
                                        file.contents, thumbnailImage)
        && table.records == UpdateFields(old(table.records), mediaId, fileName,
                                         if withThumbnail then Some(thumbName) else None, file.extension)
    {
      var found := FindIn(table.records, mediaId);
      if found.Some? {
        var media := found.value;
        var folderId := id;
        if !storage.Exists(media.disk, "/" + folderId) {
          storage.MakeDirectory(media.disk, "/" + folderId);
        }
        var extension := file.extension;
        var fileName := FileName(uuid, name, extension);
        var thumbnailName := ThumbnailName(uuid, name, extension);
        if withThumbnail {
          storage.Put(media.disk, folderId + "/" + thumbnailName, thumbnailImage);
        }
        storage.Put(media.disk, folderId + "/" + fileName, file.contents);
        var written := WrittenKeys(media.disk, folderId, fileName, thumbnailName, withThumbnail);
        DeleteReplaced(storage, media, written);
        table.Update(mediaId, fileName, if withThumbnail then Some(thumbnailName) else None, extension);
      }
    }
  }
}
