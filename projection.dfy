/** transformMedia: the public, URL-bearing view of media rows. */
module Projection {
  import opened Wrappers
  import opened Php
  import opened MediaModel

  /** One entry of the media library. */
  datatype Descriptor = Descriptor(
    id: nat,
    name: string,
    fileType: string,
    collection: string,
    media: string,
    thumbnail: Option<string>)

  /** The disk part of a URL: omitted for a falsy disk and for "public". */
  function DiskSegment(disk: string): (seg: string)
    ensures seg == "" <==> !Truthy(disk) || disk == "public"
    ensures seg != "" ==> seg == disk + "/"
  {
    if Truthy(disk) && disk != "public" then disk + "/" else ""
  }

  /** The prefix every URL on that disk starts with. */
  function UrlPrefix(appUrl: string, disk: string): string
  {
    appUrl + "/storage/" + DiskSegment(disk)
  }

  /** The projection of one row. */
  function Describe(appUrl: string, m: Media): (d: Descriptor)
    ensures d.id == m.id && d.name == m.media && d.fileType == m.fileType && d.collection == m.collection
    ensures d.media == UrlPrefix(appUrl, m.disk) + (m.path + m.media)
    ensures d.thumbnail.Some? <==> OptTruthy(m.thumbnail)
    ensures d.thumbnail.Some? ==> d.thumbnail.value == UrlPrefix(appUrl, m.disk) + (m.path + m.thumbnail.value)
  {
    var disk := DiskSegment(m.disk);
    Descriptor(
      m.id, m.media, m.fileType, m.collection,
      appUrl + "/storage/" + disk + m.path + m.media,
      if OptTruthy(m.thumbnail) then Some(appUrl + "/storage/" + disk + m.path + m.thumbnail.value) else None)
  }

  /** The storage key a URL refers to is recovered by dropping the disk's prefix. */
  lemma UrlRecoversKey(appUrl: string, disk: string, key: string)
    ensures var u := UrlPrefix(appUrl, disk) + key;
      |UrlPrefix(appUrl, disk)| <= |u| && u[|UrlPrefix(appUrl, disk)|..] == key
  {
  }

  /** Two rows in the same folder of the same disk with different file names get different URLs. */
  lemma MediaUrlInjective(appUrl: string, m1: Media, m2: Media)
    requires m1.disk == m2.disk && m1.path == m2.path
    requires Describe(appUrl, m1).media == Describe(appUrl, m2).media
    ensures m1.media == m2.media
  {
    var p := UrlPrefix(appUrl, m1.disk);
    UrlRecoversKey(appUrl, m1.disk, m1.path + m1.media);
    UrlRecoversKey(appUrl, m1.disk, m2.path + m2.media);
    assert m1.path + m1.media == m2.path + m2.media;
    assert (m1.path + m1.media)[|m1.path|..] == m1.media;
    assert (m2.path + m2.media)[|m2.path|..] == m2.media;
  }

  /** What getMedia hands to transformMedia: a query result, or a plain PHP array. */
  datatype Argument = CollectionArg(rows: seq<Media>) | ArrayArg(rows: seq<Media>)

  /** getMedia's argument: the owner's rows when it has any, otherwise the array `[]`. */
  function LibraryArgument(hasMedia: bool, owned: seq<Media>): (a: Argument)
    ensures a.CollectionArg? <==> hasMedia
    ensures hasMedia ==> a.rows == owned
    ensures !hasMedia ==> a.rows == []
  {
    if hasMedia then CollectionArg(owned) else ArrayArg([])
  }

  /** transformMedia's parameter is declared as a Collection; an array is refused with a type error. */
  predicate AcceptedByTransform(a: Argument)
  {
    a.CollectionArg?
  }

  /** The empty library never reaches transformMedia: only an owner with media gets a library. */
  lemma EmptyLibraryRejected(hasMedia: bool, owned: seq<Media>)
    ensures AcceptedByTransform(LibraryArgument(hasMedia, owned)) <==> hasMedia
  {
  }

  /**
   * transformMedia: one descriptor per row, in the rows' order.
   */
  method TransformMedia(appUrl: string, media: seq<Media>) returns (r: seq<Descriptor>)
    ensures |r| == |media|
    ensures forall i :: 0 <= i < |media| ==> r[i] == Describe(appUrl, media[i])
  {
    r := [];
    var i := 0;
    while i < |media|
      invariant 0 <= i <= |media|
      invariant |r| == i
      invariant forall j :: 0 <= j < i ==> r[j] == Describe(appUrl, media[j])
    {
      r := r + [Describe(appUrl, media[i])];
      i := i + 1;
    }
  }
}
