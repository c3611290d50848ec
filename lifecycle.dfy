/**
 * The effect of the media trait's operations on the two stores, as
 * functions of the old state, and what those effects guarantee.
 */
module Lifecycle {
  import opened Wrappers
  import opened Php
  import opened Filters
  import opened MediaModel
  import opened Storage
  import opened Naming
  import opened Projection

  /** The `media()` relation: the rows that belong to one owner, in table order. */
  function OwnedBy(q: seq<Media>, modelType: string, modelId: string): (r: seq<Media>)
    ensures forall m :: m in r <==> m in q && m.modelType == modelType && m.modelId == modelId
  {
    Filter(q, (m: Media) => m.modelType == modelType && m.modelId == modelId)
  }

  /** The rows of one owner's collection: `media()->where('collection', c)`. */
  function CollectionOf(q: seq<Media>, modelType: string, modelId: string, collection: string): (r: seq<Media>)
    ensures forall m :: m in r <==>
      m in q && m.modelType == modelType && m.modelId == modelId && m.collection == collection
  {
    Where(OwnedBy(q, modelType, modelId), CollectionColumn, collection)
  }

  /** The blobs a row refers to: its primary file, and its thumbnail when that column is truthy. */
  function BlobKeys(m: Media): (ks: set<BlobKey>)
    ensures BlobKey(m.disk, m.path + m.media) in ks
    ensures OptTruthy(m.thumbnail) ==> BlobKey(m.disk, m.path + m.thumbnail.value) in ks
    ensures !OptTruthy(m.thumbnail) ==> ks == {BlobKey(m.disk, m.path + m.media)}
    ensures forall k :: k in ks ==> k.disk == m.disk && m.path <= k.key
  {
    {BlobKey(m.disk, m.path + m.media)} +
    (if OptTruthy(m.thumbnail) then {BlobKey(m.disk, m.path + m.thumbnail.value)} else {})
  }

  /** The blobs a list of rows refers to. */
  function KeysOf(q: seq<Media>): set<BlobKey>
  {
    if q == [] then {} else KeysOf(q[..|q| - 1]) + BlobKeys(q[|q| - 1])
  }

  /** A blob is referred to by some rows exactly when one of those rows refers to it. */
  lemma {:induction false} KeysOfMembers(q: seq<Media>)
    ensures forall k :: k in KeysOf(q) <==> exists m :: m in q && k in BlobKeys(m)
  {
    if q != [] {
      var init := q[..|q| - 1];
      KeysOfMembers(init);
      assert q == init + [q[|q| - 1]];
    }
  }

  /** Extending a prefix by one row adds that row's blobs. */
  lemma KeysOfPrefix(q: seq<Media>, i: nat)
    requires i < |q|
    ensures KeysOf(q[..i + 1]) == KeysOf(q[..i]) + BlobKeys(q[i])
  {
    assert q[..i + 1][..i] == q[..i];
  }

  /** Where store and updateMedia write: `folderId/fileName`, and `folderId/thumbnailName` when thumbnailing. */
  function WrittenKeys(disk: string, folderId: string, fileName: string, thumbName: string, withThumb: bool): set<BlobKey>
  {
    {BlobKey(disk, folderId + "/" + fileName)} +
    (if withThumb then {BlobKey(disk, folderId + "/" + thumbName)} else {})
  }

  /** The blobs after the writes of store: the thumbnail first (when requested), then the primary file. */
  function StoreBlobs(blobs: map<BlobKey, Bytes>, disk: string, folderId: string, fileName: string,
                      thumbName: string, withThumb: bool, contents: Bytes, image: Bytes): (r: map<BlobKey, Bytes>)
    ensures r.Keys == blobs.Keys + WrittenKeys(disk, folderId, fileName, thumbName, withThumb)
    ensures r[BlobKey(disk, folderId + "/" + fileName)] == contents
  {
    var b := if withThumb then blobs[BlobKey(disk, folderId + "/" + thumbName) := image] else blobs;
    b[BlobKey(disk, folderId + "/" + fileName) := contents]
  }

  /** The row store creates. */
  function NewRecord(id: nat, modelType: string, ownerId: string, disk: string, collection: string,
                     withThumb: bool, fileName: string, thumbName: string, ext: string): (r: Media)
    ensures r.id == id && r.modelType == modelType && r.modelId == ownerId
    ensures r.disk == disk && r.collection == collection && r.fileType == ext
    ensures r.path == ownerId + "/" && r.media == fileName
    ensures r.path + r.media == ownerId + "/" + fileName
    ensures r.thumbnail.Some? <==> withThumb
    ensures withThumb ==> r.path + r.thumbnail.value == ownerId + "/" + thumbName
  {
    Media(id, modelType, ownerId, fileName, if withThumb then Some(thumbName) else None,
          ext, collection, disk, ownerId + "/")
  }

  /**
   * Every row's blobs exist: a row and its files live together. store keeps
   * this; deleteMedia and the corrected update keep it only while no other row
   * shares the blobs of the row they touch (see RepeatedNameSharesBlobs).
   */
  ghost predicate Consistent(blobs: map<BlobKey, Bytes>, q: seq<Media>)
  {
    forall m :: m in q ==> BlobKeys(m) <= blobs.Keys
  }

  /**
   * The writes of store land exactly at the written keys, with the right
   * contents, and no other blob changes.
   */
  lemma StoreWrites(blobs: map<BlobKey, Bytes>, disk: string, folderId: string, fileName: string,
                    thumbName: string, withThumb: bool, contents: Bytes, image: Bytes)
    requires fileName != thumbName
    ensures var b := StoreBlobs(blobs, disk, folderId, fileName, thumbName, withThumb, contents, image);
      && b.Keys == blobs.Keys + WrittenKeys(disk, folderId, fileName, thumbName, withThumb)
      && b[BlobKey(disk, folderId + "/" + fileName)] == contents
      && (withThumb ==> b[BlobKey(disk, folderId + "/" + thumbName)] == image)
      && forall k :: k in blobs && k !in WrittenKeys(disk, folderId, fileName, thumbName, withThumb) ==> b[k] == blobs[k]
  {
    var p := folderId + "/";
    assert fileName == (p + fileName)[|p|..];
    assert thumbName == (p + thumbName)[|p|..];
  }

  /**
   * The row store creates points at the blobs store wrote: its path plus
   * its media is the primary key, its thumbnail (when present) the
   * thumbnail key; type, disk and collection come from the inputs.
   */
  lemma StoredRecordLocatesBlobs(id: nat, modelType: string, ownerId: string, disk: string, collection: string,
                                 withThumb: bool, uuid: string, name: Option<string>, ext: string)
    ensures var r := NewRecord(id, modelType, ownerId, disk, collection, withThumb,
                               FileName(uuid, name, ext), ThumbnailName(uuid, name, ext), ext);
      && BlobKeys(r) == WrittenKeys(disk, ownerId, FileName(uuid, name, ext), ThumbnailName(uuid, name, ext), withThumb)
      && r.path + r.media == ownerId + "/" + Stem(uuid, name) + "." + ext
      && r.thumbnail == (if withThumb then Some("thumbnail_" + r.media) else None)
      && r.fileType == ext && r.disk == disk && r.collection == collection
      && r.modelType == modelType && r.modelId == ownerId
  {
  }

  /**
   * What a freshly stored row looks like in the library: the public URL
   * `{appUrl}/storage/[{disk}/]{ownerId}/{fileName}`, the disk part left out
   * for "public" (and for a falsy disk), and the thumbnail URL beside it.
   */
  lemma StoredMediaUrls(appUrl: string, id: nat, modelType: string, ownerId: string, disk: string,
                        collection: string, withThumb: bool, uuid: string, name: Option<string>, ext: string)
    ensures var r := NewRecord(id, modelType, ownerId, disk, collection, withThumb,
                               FileName(uuid, name, ext), ThumbnailName(uuid, name, ext), ext);
      var seg := if disk == "public" || !Truthy(disk) then "" else disk + "/";
      var d := Describe(appUrl, r);
      && d.name == Stem(uuid, name) + "." + ext
      && d.media == appUrl + "/storage/" + seg + ownerId + "/" + d.name
      && d.thumbnail == (if withThumb then Some(appUrl + "/storage/" + seg + ownerId + "/" + "thumbnail_" + d.name) else None)
  {
    var fileName := FileName(uuid, name, ext);
    var p := appUrl + "/storage/" + DiskSegment(disk);
    assert p + (ownerId + "/" + fileName) == p + ownerId + "/" + fileName;
    assert p + (ownerId + "/" + ("thumbnail_" + fileName)) == p + ownerId + "/" + "thumbnail_" + fileName;
  }

  /**
   * The library points at storage: each URL of a row's descriptor is the
   * disk's URL prefix followed by one of the row's blob keys, and each of the
   * row's blobs is shown by one of its URLs.
   */
  lemma DescribeLocatesBlobs(appUrl: string, m: Media)
    ensures var d, p := Describe(appUrl, m), UrlPrefix(appUrl, m.disk);
      && p <= d.media && BlobKey(m.disk, d.media[|p|..]) in BlobKeys(m)
      && (d.thumbnail.Some? ==> p <= d.thumbnail.value && BlobKey(m.disk, d.thumbnail.value[|p|..]) in BlobKeys(m))
      && forall k :: k in BlobKeys(m) ==>
           p + k.key == d.media || (d.thumbnail.Some? && p + k.key == d.thumbnail.value)
  {
    UrlRecoversKey(appUrl, m.disk, m.path + m.media);
    if OptTruthy(m.thumbnail) {
      UrlRecoversKey(appUrl, m.disk, m.path + m.thumbnail.value);
    }
  }

  /** store keeps every row's blobs present, the new row's included. */
  lemma StorePreservesConsistency(blobs: map<BlobKey, Bytes>, q: seq<Media>, id: nat, modelType: string,
                                  ownerId: string, disk: string, collection: string, withThumb: bool,
                                  uuid: string, name: Option<string>, ext: string, contents: Bytes, image: Bytes)
    requires Consistent(blobs, q)
    ensures Consistent(
      StoreBlobs(blobs, disk, ownerId, FileName(uuid, name, ext), ThumbnailName(uuid, name, ext), withThumb, contents, image),
      q + [NewRecord(id, modelType, ownerId, disk, collection, withThumb,
                     FileName(uuid, name, ext), ThumbnailName(uuid, name, ext), ext)])
  {
    var fileName, thumbName := FileName(uuid, name, ext), ThumbnailName(uuid, name, ext);
    StoreWrites(blobs, disk, ownerId, fileName, thumbName, withThumb, contents, image);
    StoredRecordLocatesBlobs(id, modelType, ownerId, disk, collection, withThumb, uuid, name, ext);
  }

  /** Deleting a row and its blobs keeps the others consistent when no other row shares those blobs. */
  lemma DeletePreservesConsistency(blobs: map<BlobKey, Bytes>, q: seq<Media>, m: Media)
    requires Consistent(blobs, q)
    requires forall x :: x in q && x.id != m.id ==> BlobKeys(x) !! BlobKeys(m)
    ensures Consistent(blobs - BlobKeys(m), RemoveIds(q, {m.id}))
  {
  }

  /**
   * Blobs are shared when one owner stores twice under the same truthy name,
   * with the same extension, disk and thumbnail setting:
   * both rows name the same keys, and deleting the first leaves the second
   * without its files.
   */
  lemma RepeatedNameSharesBlobs(blobs: map<BlobKey, Bytes>, id1: nat, id2: nat, modelType: string,
                                ownerId: string, disk: string, collection: string, withThumb: bool,
                                uuid1: string, uuid2: string, name: Option<string>, ext: string,
                                contents1: Bytes, image1: Bytes, contents2: Bytes, image2: Bytes)
    requires id1 != id2 && OptTruthy(name)
    ensures var f1, t1 := FileName(uuid1, name, ext), ThumbnailName(uuid1, name, ext);
      var f2, t2 := FileName(uuid2, name, ext), ThumbnailName(uuid2, name, ext);
      var r1 := NewRecord(id1, modelType, ownerId, disk, collection, withThumb, f1, t1, ext);
      var r2 := NewRecord(id2, modelType, ownerId, disk, collection, withThumb, f2, t2, ext);
      var b := StoreBlobs(StoreBlobs(blobs, disk, ownerId, f1, t1, withThumb, contents1, image1),
                          disk, ownerId, f2, t2, withThumb, contents2, image2);
      && BlobKeys(r1) == BlobKeys(r2)
      && Consistent(b, [r1, r2])
      && !Consistent(b - BlobKeys(r1), RemoveIds([r1, r2], {id1}))
  {
    var f1, t1 := FileName(uuid1, name, ext), ThumbnailName(uuid1, name, ext);
    var f2, t2 := FileName(uuid2, name, ext), ThumbnailName(uuid2, name, ext);
    var r1 := NewRecord(id1, modelType, ownerId, disk, collection, withThumb, f1, t1, ext);
    var r2 := NewRecord(id2, modelType, ownerId, disk, collection, withThumb, f2, t2, ext);
    var b1 := StoreBlobs(blobs, disk, ownerId, f1, t1, withThumb, contents1, image1);
    var b := StoreBlobs(b1, disk, ownerId, f2, t2, withThumb, contents2, image2);
    assert f1 == f2 && t1 == t2;
    StoredRecordLocatesBlobs(id1, modelType, ownerId, disk, collection, withThumb, uuid1, name, ext);
    StoredRecordLocatesBlobs(id2, modelType, ownerId, disk, collection, withThumb, uuid2, name, ext);
    StorePreservesConsistency(map[], [], id1, modelType, ownerId, disk, collection, withThumb,
                              uuid1, name, ext, contents1, image1);
    StoreWrites(blobs, disk, ownerId, f1, t1, withThumb, contents1, image1);
    StoreWrites(b1, disk, ownerId, f2, t2, withThumb, contents2, image2);
    assert Consistent(b, [r1, r2]);
    var rest := RemoveIds([r1, r2], {id1});
    assert r2 in rest;
    assert BlobKey(disk, r2.path + r2.media) in BlobKeys(r1);
  }

  /** After deleting a row by id, finding that id fails: a second deleteMedia(id) is a no-op. */
  lemma DeleteTwiceIsNoOp(q: seq<Media>, id: nat)
    ensures FindIn(RemoveIds(q, {id}), id) == None
  {
  }

  /** The bulk branch of deleteMedia removes exactly the owner's rows. */
  lemma DeleteAllRemovesOwned(q: seq<Media>, modelType: string, modelId: string)
    requires UniqueIds(q)
    ensures forall m :: m in RemoveIds(q, IdsOf(OwnedBy(q, modelType, modelId))) <==>
      m in q && !(m.modelType == modelType && m.modelId == modelId)
  {
    RemoveRowsExactly(q, OwnedBy(q, modelType, modelId));
  }

  /**
   * deleteCollection removes exactly the owner's rows of that collection:
   * the owner's other collections and every other owner's rows survive.
   */
  lemma DeleteCollectionRemovesOnly(q: seq<Media>, modelType: string, modelId: string, collection: string)
    requires UniqueIds(q)
    ensures forall m :: m in RemoveIds(q, IdsOf(CollectionOf(q, modelType, modelId, collection))) <==>
      m in q && !(m.modelType == modelType && m.modelId == modelId && m.collection == collection)
  {
    RemoveRowsExactly(q, CollectionOf(q, modelType, modelId, collection));
  }

  /** A bulk delete touches only the blobs of the rows it removes. */
  lemma BulkDeleteKeepsOtherBlobs(blobs: map<BlobKey, Bytes>, items: seq<Media>, k: BlobKey)
    requires k in blobs
    requires forall m :: m in items ==> k !in BlobKeys(m)
    ensures k in blobs - KeysOf(items) && (blobs - KeysOf(items))[k] == blobs[k]
  {
    KeysOfMembers(items);
  }

  // ---- updateMedia ----

  /**
   * updateMedia as written: the new thumbnail and file are put first, then
   * the old file and the old thumbnail are deleted on the row's disk.
   */
  function UpdateBlobsAsWritten(blobs: map<BlobKey, Bytes>, m: Media, folderId: string, fileName: string,
                                thumbName: string, withThumb: bool, contents: Bytes, image: Bytes): (r: map<BlobKey, Bytes>)
    ensures r.Keys == (blobs.Keys + WrittenKeys(m.disk, folderId, fileName, thumbName, withThumb)) - BlobKeys(m)
    ensures forall k :: k in r ==> k !in BlobKeys(m)
  {
    StoreBlobs(blobs, m.disk, folderId, fileName, thumbName, withThumb, contents, image) - BlobKeys(m)
  }

  /**
   * updateMedia as written loses the new file when the row is the owner's
   * and its old name equals the new one: the put is followed by a delete of
   * the same key.
   */
  lemma UpdateLosesFileOnSameKey(blobs: map<BlobKey, Bytes>, m: Media, folderId: string, fileName: string,
                                 thumbName: string, withThumb: bool, contents: Bytes, image: Bytes)
    requires m.path == folderId + "/" && m.media == fileName
    ensures BlobKey(m.disk, folderId + "/" + fileName) !in
      UpdateBlobsAsWritten(blobs, m, folderId, fileName, thumbName, withThumb, contents, image)
  {
  }

  /**
   * So the update as written breaks the invariant: the updated row names a
   * primary blob that no longer exists.
   */
  lemma UpdateAsWrittenBreaksConsistency(blobs: map<BlobKey, Bytes>, q: seq<Media>, m: Media, folderId: string,
                                         fileName: string, thumbName: string, withThumb: bool, ext: string,
                                         contents: Bytes, image: Bytes)
    requires m in q && m.path == folderId + "/" && m.media == fileName
    ensures !Consistent(UpdateBlobsAsWritten(blobs, m, folderId, fileName, thumbName, withThumb, contents, image),
                        UpdateFields(q, m.id, fileName, if withThumb then Some(thumbName) else None, ext))
  {
    var r := UpdateFields(q, m.id, fileName, if withThumb then Some(thumbName) else None, ext);
    var i :| 0 <= i < |q| && q[i] == m;
    assert r[i] in r;
    assert BlobKey(m.disk, r[i].path + r[i].media) in BlobKeys(r[i]);
    UpdateLosesFileOnSameKey(blobs, m, folderId, fileName, thumbName, withThumb, contents, image);
  }

  /**
   * A concrete instance: owner 7 re-uploads "avatar.jpg" under the name
   * "avatar"; afterwards the row still says "7/avatar.jpg" and no blob is there.
   */
  lemma UpdateLosesFileExample(contents: Bytes)
    ensures var m := Media(1, "User", "7", "avatar.jpg", None, "jpg", "default", "public", "7/");
      var fileName := FileName("uuid", Some("avatar"), "jpg");
      var after := UpdateBlobsAsWritten(map[BlobKey("public", "7/avatar.jpg") := contents], m, "7",
                                        fileName, ThumbnailName("uuid", Some("avatar"), "jpg"), false, contents, []);
      && fileName == m.media
      && BlobKey("public", m.path + fileName) !in after
  {
    var m := Media(1, "User", "7", "avatar.jpg", None, "jpg", "default", "public", "7/");
    assert FileName("uuid", Some("avatar"), "jpg") == "avatar.jpg";
    UpdateLosesFileOnSameKey(map[BlobKey("public", "7/avatar.jpg") := contents], m, "7", "avatar.jpg",
                             ThumbnailName("uuid", Some("avatar"), "jpg"), false, contents, []);
  }

  /**
   * updateMedia corrected: an old blob is deleted only when it is not one of
   * the keys just written.
   */
  function UpdateBlobs(blobs: map<BlobKey, Bytes>, m: Media, folderId: string, fileName: string,
                       thumbName: string, withThumb: bool, contents: Bytes, image: Bytes): map<BlobKey, Bytes>
  {
    StoreBlobs(blobs, m.disk, folderId, fileName, thumbName, withThumb, contents, image)
      - (BlobKeys(m) - WrittenKeys(m.disk, folderId, fileName, thumbName, withThumb))
  }

  /**
   * The corrected update ends with the new blobs present with their
   * contents, the old blobs it did not overwrite gone, and every other blob
   * untouched.
   */
  lemma UpdateKeepsNewFiles(blobs: map<BlobKey, Bytes>, m: Media, folderId: string, fileName: string,
                            thumbName: string, withThumb: bool, contents: Bytes, image: Bytes)
    requires fileName != thumbName
    ensures var b := UpdateBlobs(blobs, m, folderId, fileName, thumbName, withThumb, contents, image);
      var written := WrittenKeys(m.disk, folderId, fileName, thumbName, withThumb);
      && b.Keys == (blobs.Keys - BlobKeys(m)) + written
      && b[BlobKey(m.disk, folderId + "/" + fileName)] == contents
      && (withThumb ==> b[BlobKey(m.disk, folderId + "/" + thumbName)] == image)
      && forall k :: k in blobs && k !in written && k !in BlobKeys(m) ==> b[k] == blobs[k]
  {
    StoreWrites(blobs, m.disk, folderId, fileName, thumbName, withThumb, contents, image);
  }

  /** Where the new keys and the old keys differ, the correction changes nothing. */
  lemma CorrectionAgreesWithoutCollision(blobs: map<BlobKey, Bytes>, m: Media, folderId: string, fileName: string,
                                         thumbName: string, withThumb: bool, contents: Bytes, image: Bytes)
    requires WrittenKeys(m.disk, folderId, fileName, thumbName, withThumb) !! BlobKeys(m)
    ensures UpdateBlobs(blobs, m, folderId, fileName, thumbName, withThumb, contents, image)
         == UpdateBlobsAsWritten(blobs, m, folderId, fileName, thumbName, withThumb, contents, image)
  {
    assert BlobKeys(m) - WrittenKeys(m.disk, folderId, fileName, thumbName, withThumb) == BlobKeys(m);
  }

  /**
   * The corrected update of one of the owner's own rows keeps every row's
   * blobs present, provided no other row shares that row's blobs.
   */
  lemma UpdatePreservesConsistency(blobs: map<BlobKey, Bytes>, q: seq<Media>, m: Media, folderId: string,
                                   uuid: string, name: Option<string>, ext: string, withThumb: bool,
                                   contents: Bytes, image: Bytes)
    requires Consistent(blobs, q) && UniqueIds(q) && m in q
    requires m.path == folderId + "/"
    requires forall x :: x in q && x.id != m.id ==> BlobKeys(x) !! BlobKeys(m)
    ensures var fileName, thumbName := FileName(uuid, name, ext), ThumbnailName(uuid, name, ext);
      Consistent(UpdateBlobs(blobs, m, folderId, fileName, thumbName, withThumb, contents, image),
                 UpdateFields(q, m.id, fileName, if withThumb then Some(thumbName) else None, ext))
  {
    var fileName, thumbName := FileName(uuid, name, ext), ThumbnailName(uuid, name, ext);
    var b := UpdateBlobs(blobs, m, folderId, fileName, thumbName, withThumb, contents, image);
    var r := UpdateFields(q, m.id, fileName, if withThumb then Some(thumbName) else None, ext);
    var written := WrittenKeys(m.disk, folderId, fileName, thumbName, withThumb);
    UpdateKeepsNewFiles(blobs, m, folderId, fileName, thumbName, withThumb, contents, image);
    forall x | x in r ensures BlobKeys(x) <= b.Keys {
      var i :| 0 <= i < |r| && r[i] == x;
      if q[i].id == m.id {
        assert BlobKeys(x) == written;
      } else {
        assert x == q[i] && q[i] in q;
      }
    }
  }

  /**
   * updateMedia writes under the caller's id but keeps the row's path: a row
   * of owner 2 updated through owner 1 ends up naming a blob that was never
   * written.
   */
  lemma ForeignUpdateDangles(contents: Bytes)
    ensures var m := Media(5, "User", "2", "old.jpg", None, "jpg", "default", "public", "2/");
      var b := UpdateBlobs(map[BlobKey("public", "2/old.jpg") := contents], m, "1",
                           "new.jpg", "thumbnail_new.jpg", false, contents, []);
      && BlobKey("public", "1/new.jpg") in b
      && BlobKey("public", m.path + "new.jpg") !in b
  {
    var m := Media(5, "User", "2", "old.jpg", None, "jpg", "default", "public", "2/");
    var blobs := map[BlobKey("public", "2/old.jpg") := contents];
    var written, stale, dangling := BlobKey("public", "1/new.jpg"), BlobKey("public", "2/old.jpg"), BlobKey("public", "2/new.jpg");
    assert "1" + "/" + "new.jpg" == "1/new.jpg";
    assert "2/" + "old.jpg" == "2/old.jpg";
    assert "2/" + "new.jpg" == "2/new.jpg";
    assert BlobKeys(m) == {stale};
    assert WrittenKeys("public", "1", "new.jpg", "thumbnail_new.jpg", false) == {written};
    assert StoreBlobs(blobs, "public", "1", "new.jpg", "thumbnail_new.jpg", false, contents, []) == blobs[written := contents];
    assert dangling != written && dangling != stale;
  }
}
