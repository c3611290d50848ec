/** How store and updateMedia name the primary file and its thumbnail. */
module Naming {
  import opened Wrappers
  import opened Php

  /** The chosen stem: the explicit name when it is truthy, the generated UUID otherwise. */
  function Stem(uuid: string, name: Option<string>): string
  {
    if OptTruthy(name) then name.value else uuid
  }

  /** The stored file name: the chosen stem, a dot, the client extension. */
  function FileName(uuid: string, name: Option<string>, ext: string): (r: string)
    ensures r == Stem(uuid, name) + "." + ext
  {
    if OptTruthy(name) then name.value + "." + ext else uuid + "." + ext
  }

  /**
   * The thumbnail name. Both branches of the source spell it differently,
   * yet it is always the file name behind the prefix "thumbnail_"; so it is
   * never the file name itself, and never a falsy string.
   */
  function ThumbnailName(uuid: string, name: Option<string>, ext: string): (r: string)
    ensures r == "thumbnail_" + FileName(uuid, name, ext)
    ensures r != FileName(uuid, name, ext)
    ensures Truthy(r)
  {
    if OptTruthy(name) then "thumbnail_" + name.value + "." + ext
    else "thumbnail_" + (uuid + "." + ext)
  }

  /** Splits ".ext" back off a file name; None when the name does not end in it. */
  function StemOf(fileName: string, ext: string): Option<string>
  {
    var n := |fileName| - |ext| - 1;
    if 0 <= n && fileName[n..] == "." + ext then Some(fileName[..n]) else None
  }

  /** The stored file name splits back into the chosen stem and the extension. */
  lemma StemRoundTrip(uuid: string, name: Option<string>, ext: string)
    ensures StemOf(FileName(uuid, name, ext), ext) == Some(Stem(uuid, name))
  {
    var stem := Stem(uuid, name);
    var f := FileName(uuid, name, ext);
    assert f == stem + ("." + ext);
    assert f[|stem|..] == "." + ext;
    assert f[..|stem|] == stem;
  }

  /** With the extension fixed, distinct stems give distinct file names. */
  lemma FileNameInjective(uuid1: string, name1: Option<string>, uuid2: string, name2: Option<string>, ext: string)
    requires FileName(uuid1, name1, ext) == FileName(uuid2, name2, ext)
    ensures Stem(uuid1, name1) == Stem(uuid2, name2)
  {
    StemRoundTrip(uuid1, name1, ext);
    StemRoundTrip(uuid2, name2, ext);
  }
}
