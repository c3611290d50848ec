# laravel-media: the media-library lifecycle of one owner, in Dafny

This project models the core of the `iamx\Media` Laravel package: the
`MediaTrait` that any Eloquent model can use to "have media", and the
`Media` model that stores one row per attached file. The model covers one
owner (the model using the trait, identified by its morph type and id)
acting on two stores:

- the storage backend: per disk, a map from key to bytes plus the set of
  directories created (`Storage.BlobStore`);
- the media table: rows `{id, model_type, model_id, media, thumbnail, type,
  collection, disk, path}` in insertion order, with an auto-increment id
  (`MediaTable.Table`, rows are `MediaModel.Media`).

The owner (`MediaTrait.MediaOwner`) carries the trait's mutable
configuration (`disk`, `name`, `file`, `collection`, `thumbnail`, width and
height) set by the fluent setters, and the operations `Store`,
`DeleteMedia` (one id, or all), `DeleteCollection` and `UpdateMedia`
change the two stores in place. Each method's postcondition gives the new
state as a function of the old one (`Lifecycle.StoreBlobs`,
`Lifecycle.UpdateBlobs`, `MediaModel.RemoveIds`, `MediaModel.UpdateFields`,
`Lifecycle.KeysOf`), and the lemmas in `Lifecycle` state what those
effects guarantee: where blobs land, that the row points at them, which rows
survive a bulk delete, and when the invariant "every row's blobs exist"
(`Lifecycle.Consistent`) is kept. `store` always keeps it. `deleteMedia` and
the corrected update keep it only while no other row shares the blobs of
the row they touch. Sharing does arise: two stores by one owner under the
same truthy name, of files with the same extension on the same disk, write
the same keys, because the name (which persists in
the owner between calls) replaces the UUID in the file name; deleting one
of the two rows then takes the other's files
(`Lifecycle.RepeatedNameSharesBlobs`). The update as written breaks the
invariant outright when the new file name equals the old one
(`Lifecycle.UpdateAsWrittenBreaksConsistency`). The read side is pure: the
ownership relation, the three equality scopes of the `Media` model, the
name derivation (`Naming`) and the URL projection (`Projection`).

Modules: `Wrappers` (Option), `Php` (PHP truthiness of strings and ids),
`Filters` (order-preserving selection), `MediaModel` (the row, the scopes,
lookups by id), `Storage`, `MediaTable`, `Naming`, `Projection`,
`Lifecycle` (state effects and their lemmas), `MediaTrait` (the owner).

Inputs the source draws from its environment are parameters: the generated
UUID (`uuid`), the resized thumbnail image (`thumbnailImage`), the uploaded
file (`Upload`: client extension and bytes), and `config('app.url')`
(`appUrl`).

Where the code behaves surprisingly, the model follows it:
- the disk segment of a URL is left out for a falsy disk as well as for
  `"public"`;
- `deleteMedia(id)` looks the id up among all rows, not only the owner's,
  and does nothing at all when the owner has no media;
- a falsy id (`null` or `0`) sends `deleteMedia` to its bulk branch;
- `updateMedia` looks the row up globally, writes the new blobs under the
  caller's id and keeps the row's old path, so updating another owner's row
  leaves it naming a blob that was never written
  (`Lifecycle.ForeignUpdateDangles`).

Two behaviours of the code are recorded as findings, and the model proves
the corrected behaviour alongside the one as written:
- `updateMedia` deletes the old blobs after writing the new ones, which
  loses the new file when the keys coincide. Its effect as written is
  `Lifecycle.UpdateBlobsAsWritten`; the method `UpdateMedia` implements the
  corrected `Lifecycle.UpdateBlobs`.
- `getMedia` and the `media_library` attribute pass the plain array `[]` to
  `transformMedia`, whose parameter is declared as an Eloquent `Collection`,
  when the owner has no media; PHP refuses that argument with a type error.
  The methods `GetMedia` and `GetMediaLibraryAttribute` model this as
  written (`ok` is false exactly when the owner has no media);
  `GetMediaOrEmpty` is the intended empty library.

## Model

| member | source | states |
|---|---|---|
| `MediaModel.Attributes` | src/Models/Media.php:14-23 | a row carries exactly the eight mass-assignable attributes; only the thumbnail may be null |
| `MediaModel.FromAttributes` | src/Models/Media.php:14-23 | an attribute map describes a row exactly when every mass-assignable attribute is present and only the thumbnail is null |
| `MediaModel.AttributesRoundTrip` | src/Models/Media.php:14-23 | a row is recovered from its id and its mass-assignable attributes |
| `MediaModel.Where` | src/Models/Media.php:30-43 | `where(column, value)` keeps exactly the rows whose column equals the value |
| `MediaModel.FromCollection` | src/Models/Media.php:30-33 | keeps exactly the rows whose collection equals the argument |
| `MediaModel.FromDisk` | src/Models/Media.php:35-38 | keeps exactly the rows whose disk equals the argument |
| `MediaModel.WhereType` | src/Models/Media.php:40-43 | keeps exactly the rows whose type equals the argument |
| `MediaModel.WhereIdempotent` | src/Models/Media.php:30-43 | applying a scope twice equals applying it once |
| `MediaModel.WhereKeepsOrder` | src/Models/Media.php:30-43 | a scope distributes over concatenation, so selected rows keep their input order |
| `MediaModel.WhereSubMultiset` | src/Models/Media.php:30-43 | a scope's result is a sub-multiset of its input |
| `MediaModel.FindIn` | src/Traits/MediaTrait.php:155 | `Media::find` returns a row with that id, from any owner, exactly when one exists |
| `MediaModel.FindInUnique` | src/Traits/MediaTrait.php:155 | with unique ids, `find` returns the one row carrying that id |
| `MediaModel.RemoveIds` | src/Traits/MediaTrait.php:170 | deleting by id keeps exactly the rows whose id is not deleted |
| `MediaModel.RemoveNoIds` | src/Traits/MediaTrait.php:175-190 | deleting no ids leaves the table unchanged |
| `MediaModel.RemoveIdsUnion` | src/Traits/MediaTrait.php:175-190 | deleting rows one after another equals deleting the union of their ids |
| `MediaModel.RemoveIdsUnique` | src/Traits/MediaTrait.php:170 | deleting rows keeps ids unique |
| `MediaModel.RemoveRowsExactly` | src/Traits/MediaTrait.php:175-190 | with unique ids, deleting the ids of some rows removes exactly those rows |
| `MediaModel.IdsOfMembers` | src/Traits/MediaTrait.php:175-190 | the ids of a row list are exactly the ids its rows carry |
| `MediaModel.IdsOfPrefix` | src/Traits/MediaTrait.php:175-190 | each loop step adds the current row's id to those deleted |
| `MediaModel.UpdateFields` | src/Traits/MediaTrait.php:285-289 | the update replaces media, thumbnail and type of the row with that id; ids, owner, collection, disk, path and all other rows unchanged |
| `Storage.BlobStore.Exists` | src/Traits/MediaTrait.php:159-168 | true for a present blob; false only when the key is neither a blob nor a directory, so a skipped guarded delete leaves nothing behind |
| `Storage.BlobStore.MakeDirectory` | src/Traits/MediaTrait.php:105-106 | the directory is added; blobs unchanged |
| `Storage.BlobStore.Put` | src/Traits/MediaTrait.php:131 | one blob written or overwritten; nothing else changes |
| `Storage.BlobStore.Delete` | src/Traits/MediaTrait.php:160 | one blob removed; nothing else changes |
| `MediaTable.Table.Create` | src/Traits/MediaTrait.php:140 | appends one row with the next id; ids stay unique |
| `MediaTable.Table.Delete` | src/Traits/MediaTrait.php:170 | removes the row with that id; ids stay unique |
| `MediaTable.Table.Update` | src/Traits/MediaTrait.php:289 | replaces the three columns of the row with that id; ids stay unique |
| `Naming.FileName` | src/Traits/MediaTrait.php:110-118 | the file name is the chosen stem (truthy name, else UUID), a dot, the extension |
| `Naming.ThumbnailName` | src/Traits/MediaTrait.php:113-117 | in both branches the thumbnail name is "thumbnail_" + file name, differs from it, and is truthy |
| `Naming.StemRoundTrip` | src/Traits/MediaTrait.php:110-118 | stripping ".ext" off the file name gives back the chosen stem |
| `Naming.FileNameInjective` | src/Traits/MediaTrait.php:110-118 | with a fixed extension, equal file names imply equal stems |
| `Projection.DiskSegment` | src/Traits/MediaTrait.php:370 | the disk segment is empty exactly for a falsy disk or "public", else disk + "/" |
| `Projection.Describe` | src/Traits/MediaTrait.php:372-379 | the descriptor passes id, name (= media), type, collection through; media URL is the disk's prefix + path + media; thumbnail URL present exactly when the thumbnail is truthy |
| `Projection.MediaUrlInjective` | src/Traits/MediaTrait.php:377 | rows in the same folder of one disk with equal media URLs have equal file names |
| `Projection.TransformMedia` | src/Traits/MediaTrait.php:363-383 | one descriptor per input row, in input order |
| `Projection.LibraryArgument` | src/Traits/MediaTrait.php:311 | the argument is the owner's rows as a collection exactly when it has media, else the empty array |
| `Projection.EmptyLibraryRejected` | src/Traits/MediaTrait.php:363 | transformMedia accepts getMedia's argument exactly when the owner has media; the empty array is refused |
| `Lifecycle.OwnedBy` | src/Traits/MediaTrait.php:27-30 | the relation keeps exactly the rows with the owner's type and id |
| `Lifecycle.CollectionOf` | src/Traits/MediaTrait.php:205 | exactly the owner's rows of that collection |
| `Lifecycle.BlobKeys` | src/Traits/MediaTrait.php:159-168 | a row refers to its primary file and, exactly when its thumbnail is truthy, its thumbnail, all on its own disk under its path |
| `Lifecycle.KeysOfMembers` | src/Traits/MediaTrait.php:175-190 | the blobs of a row list are exactly the blobs one of its rows refers to |
| `Lifecycle.KeysOfPrefix` | src/Traits/MediaTrait.php:175-190 | each loop step adds the current row's blobs to those deleted |
| `Lifecycle.StoreBlobs` | src/Traits/MediaTrait.php:120-131 | after store's puts the keys are the old ones plus the written ones, and the primary key holds the file's bytes |
| `Lifecycle.NewRecord` | src/Traits/MediaTrait.php:131-140 | the new row has the next id, the owner, disk, collection and extension given, path + media = `ownerId/fileName`, and a thumbnail exactly when thumbnailing |
| `Lifecycle.StoreWrites` | src/Traits/MediaTrait.php:120-131 | store's writes land at `id/fileName` (and `id/thumbnailName`) with the file's bytes and the thumbnail image; no other blob changes |
| `Lifecycle.StoredRecordLocatesBlobs` | src/Traits/MediaTrait.php:131-140 | the new row's path + media is the written key, its thumbnail is "thumbnail_" + media exactly when thumbnailing, type = extension, disk and collection from the configuration |
| `Lifecycle.StoredMediaUrls` | src/Traits/MediaTrait.php:133-138 | a stored row is listed at `{appUrl}/storage/[{disk}/]{id}/{fileName}`, its thumbnail beside it |
| `Lifecycle.StorePreservesConsistency` | src/Traits/MediaTrait.php:120-140 | store keeps every row's blobs present, the new row's included |
| `Lifecycle.DeletePreservesConsistency` | src/Traits/MediaTrait.php:159-170 | deleting a row and its blobs keeps the other rows' blobs when none is shared |
| `Lifecycle.RepeatedNameSharesBlobs` | src/Traits/MediaTrait.php:115-140 | two stores under one truthy name, with the same extension, disk and thumbnail setting, give rows with the same blobs; both are consistent, but deleting the first leaves the second without its files |
| `Lifecycle.DescribeLocatesBlobs` | src/Traits/MediaTrait.php:370-377 | each URL of a descriptor is the disk's prefix followed by one of the row's blob keys, and each blob of the row is shown by one URL |
| `Lifecycle.DeleteTwiceIsNoOp` | src/Traits/MediaTrait.php:155-170 | after deleting an id, `find` of that id fails, so a second delete does nothing |
| `Lifecycle.DeleteAllRemovesOwned` | src/Traits/MediaTrait.php:175-190 | the bulk delete removes exactly the owner's rows |
| `Lifecycle.DeleteCollectionRemovesOnly` | src/Traits/MediaTrait.php:205-222 | deleteCollection removes exactly the owner's rows of that collection; other collections and other owners survive |
| `Lifecycle.BulkDeleteKeepsOtherBlobs` | src/Traits/MediaTrait.php:175-190 | a blob no removed row refers to survives a bulk delete unchanged |
| `Lifecycle.UpdateBlobsAsWritten` | src/Traits/MediaTrait.php:272-283 | as written, the keys afterwards are the old ones plus the written ones minus all of the row's old keys |
| `Lifecycle.UpdateAsWrittenBreaksConsistency` | src/Traits/MediaTrait.php:272-289 | as written, updating a row to its own file name leaves the updated row without its primary blob |
| `Lifecycle.UpdateLosesFileOnSameKey` | src/Traits/MediaTrait.php:272-276 | as written, when the owner's row already has the new file name, the new file is gone afterwards |
| `Lifecycle.UpdateLosesFileExample` | src/Traits/MediaTrait.php:272-276 | concrete instance: re-uploading "avatar.jpg" as "avatar" leaves no blob at the row's key |
| `Lifecycle.UpdateKeepsNewFiles` | src/Traits/MediaTrait.php:260-283 | corrected update: new blobs present with their contents, old blobs not overwritten gone, all other blobs unchanged |
| `Lifecycle.CorrectionAgreesWithoutCollision` | src/Traits/MediaTrait.php:272-283 | when the new keys differ from the old ones, the corrected and the as-written updates give the same blobs |
| `Lifecycle.UpdatePreservesConsistency` | src/Traits/MediaTrait.php:260-289 | the corrected update of the owner's own row keeps every row's blobs present when no other row shares that row's blobs |
| `Lifecycle.ForeignUpdateDangles` | src/Traits/MediaTrait.php:243-289 | updating owner 2's row through owner 1 writes under "1/" while the row keeps path "2/", whose new key holds no blob |
| `MediaTrait.DeleteItem` | src/Traits/MediaTrait.php:159-170 | deletes the row's file, its truthy thumbnail (each only if present) and the row: blobs minus the row's keys, rows minus its id |
| `MediaTrait.DeleteEach` | src/Traits/MediaTrait.php:175-190 | the `each` loop removes all given rows and exactly their blobs |
| `MediaTrait.DeleteReplaced` | src/Traits/MediaTrait.php:274-283 | deletes the row's old file and truthy old thumbnail, except keys just written |
| `MediaTrait.MediaOwner.constructor` | src/Traits/MediaTrait.php:14-20 | defaults: disk "public", collection "default", no thumbnail, no name, no file |
| `MediaTrait.MediaOwner.AddMedia` | src/Traits/MediaTrait.php:38-42 | sets the file (possibly null, after which store fails), nothing else |
| `MediaTrait.MediaOwner.WithThumbnail` | src/Traits/MediaTrait.php:51-58 | enables thumbnailing with width and height (default 100), nothing else |
| `MediaTrait.MediaOwner.ToDisk` | src/Traits/MediaTrait.php:66-70 | sets the disk (default "public"), nothing else |
| `MediaTrait.MediaOwner.ToCollection` | src/Traits/MediaTrait.php:78-82 | sets the collection (default "default"), nothing else |
| `MediaTrait.MediaOwner.WithName` | src/Traits/MediaTrait.php:90-94 | sets the name, nothing else |
| `MediaTrait.MediaOwner.OwnedMedia` | src/Traits/MediaTrait.php:27-30 | exactly the rows with the owner's type and id |
| `MediaTrait.MediaOwner.HasMedia` | src/Traits/MediaTrait.php:299-302 | true exactly when some row belongs to the owner |
| `MediaTrait.MediaOwner.GetMedia` | src/Traits/MediaTrait.php:309-312 | as written: fails exactly when the owner has no media; otherwise one descriptor per owned row in order |
| `MediaTrait.MediaOwner.GetMediaLibraryAttribute` | src/Traits/MediaTrait.php:319-322 | as written: the same projection and the same failure as getMedia |
| `MediaTrait.MediaOwner.GetMediaOrEmpty` | src/Traits/MediaTrait.php:309-322 | corrected: one descriptor per owned row in order; empty exactly when the owner has no media |
| `MediaTrait.MediaOwner.MediaFromCollection` | src/Traits/MediaTrait.php:330-333 | the owned rows of that collection, projected in order; each descriptor has that collection |
| `MediaTrait.MediaOwner.MediaFromDisk` | src/Traits/MediaTrait.php:341-344 | the owned rows on that disk, projected in order; each URL starts with that disk's prefix |
| `MediaTrait.MediaOwner.MediaWhereType` | src/Traits/MediaTrait.php:352-355 | the owned rows of that type, projected in order; each descriptor has that type |
| `MediaTrait.MediaOwner.Store` | src/Traits/MediaTrait.php:101-141 | directory created only if absent; without a file nothing else happens; otherwise the blobs are `StoreBlobs` of the old ones and exactly one row `NewRecord` with the next id is appended |
| `MediaTrait.MediaOwner.DeleteMedia` | src/Traits/MediaTrait.php:149-193 | no-op without media or for an unknown id; a truthy id removes that row (global lookup) and its blobs; otherwise all owned rows and their blobs; directories untouched |
| `MediaTrait.MediaOwner.DeleteCollection` | src/Traits/MediaTrait.php:201-224 | no-op without media; otherwise removes the owner's rows of that collection and their blobs |
| `MediaTrait.MediaOwner.UpdateMedia` | src/Traits/MediaTrait.php:237-292 | no-op for an unknown id; otherwise directory rule on the row's disk, blobs are the corrected `UpdateBlobs`, and only media, thumbnail and type of the row change |

## Left out

- Image resizing (Intervention Image `make`, `resize`, `aspectRatio`, `save`) is an external library doing pixel arithmetic; the model only records that the resized image (an input) appears at the thumbnail key. The width and height fields and parameters are kept but never read.
- Real storage I/O (`Storage::disk`, `path()`, `file_get_contents`, the 0775 permissions and the recursive flag) is replaced by an in-memory key map and a directory set; `exists` is true for a blob or a directory at that key, and `put` does not create parent directories.
- UUID generation (`Str::uuid`) is a parameter; randomness and uniqueness are not modelled.
- `config('app.url')` is a parameter.
- Eloquent persistence is an in-memory table in insertion order; the relation is re-read on each access, so Eloquent's caching of a loaded `$this->media` collection is not modelled.
- Owner ids are modelled by their string rendering (the folder name), compared as strings; media ids are natural numbers, so string ids passed to `find` are not modelled.
- Storage and database failures (exceptions after partial writes) are not modelled; the only failures modelled are `store` without a file, which in the source throws after the directory step, and `getMedia` / `media_library` for an owner without media, which throw a type error (see Findings).
- Concurrency between requests is not modelled; every operation runs alone.
- The fluent setters' `return $this` is not modelled; chaining is a sequence of calls.
- src/Providers/MediaServiceProvider.php (migration publishing) and the unused `Spatie\PdfToImage\Pdf` import are framework glue and are not part of this model.
- Lifecycle.DeletePreservesConsistency and Lifecycle.UpdatePreservesConsistency: hold only when no other row shares the touched row's blobs, a condition the source does not maintain (see `Lifecycle.RepeatedNameSharesBlobs`).
- MediaTrait.MediaOwner.UpdateMedia: deliberately differs from the code as written, which deletes the old keys even when they equal a key just written; the model skips those deletions (see Findings), and `Lifecycle.CorrectionAgreesWithoutCollision` shows both agree whenever the keys differ.

## Findings

| source | as written | input that shows it | evidently intended | confidence | as-written member | corrected member |
|---|---|---|---|---|---|---|
| src/Traits/MediaTrait.php:272-276 | the new file is put at `id/fileName`, then the old `path + media` is deleted when it exists | owner 7's row with path "7/" and media "avatar.jpg", updated with a ".jpg" upload and name "avatar": the put and the delete hit the same key | the replaced file is present after the update | high; not executed | `Lifecycle.UpdateLosesFileExample` | `Lifecycle.UpdateKeepsNewFiles` |
| src/Traits/MediaTrait.php:311 | with no media, `getMedia` passes the array `[]` to `transformMedia(Collection $media)` | an owner with no rows calls `getMedia()`: PHP raises a type error for the array argument | an empty library | high; not executed | `MediaTrait.MediaOwner.GetMedia` | `MediaTrait.MediaOwner.GetMediaOrEmpty` |
| src/Traits/MediaTrait.php:321 | with no media, the `media_library` attribute passes the array `[]` to `transformMedia(Collection $media)` | reading `media_library` on an owner with no rows raises the same type error | an empty library | high; not executed | `MediaTrait.MediaOwner.GetMediaLibraryAttribute` | `MediaTrait.MediaOwner.GetMediaOrEmpty` |
