/**
 * The media record (one row of the media table) and the queries over it:
 * the three equality scopes of the Media model and the lookups by id that
 * the metadata store offers.
 */
module MediaModel {
  import opened Wrappers
  import opened Filters

  /**
   * One media row: its auto-increment id and the mass-assignable columns
   * model_type, model_id, media, thumbnail, type, collection, disk, path
   * (`type` is a Dafny keyword, so that column is `fileType`).
   */
  datatype Media = Media(
    id: nat,
    modelType: string,
    modelId: string,
    media: string,
    thumbnail: Option<string>,
    fileType: string,
    collection: string,
    disk: string,
    path: string)

  /** The mass-assignable attributes of a media row, in declaration order. */
  const Fillable: seq<string> :=
    ["model_type", "model_id", "media", "thumbnail", "type", "collection", "disk", "path"]

  /** A row's mass-assignable attributes by column name; only the thumbnail may be null. */
  function Attributes(m: Media): (a: map<string, Option<string>>)
    ensures a.Keys == set c | c in Fillable
    ensures forall c :: c in a && c != "thumbnail" ==> a[c].Some?
    ensures a["thumbnail"] == m.thumbnail
  {
    map["model_type" := Some(m.modelType), "model_id" := Some(m.modelId), "media" := Some(m.media),
        "thumbnail" := m.thumbnail, "type" := Some(m.fileType), "collection" := Some(m.collection),
        "disk" := Some(m.disk), "path" := Some(m.path)]
  }

  /** The row an id and an attribute map describe; None when a required attribute is missing or null. */
  function FromAttributes(id: nat, a: map<string, Option<string>>): (r: Option<Media>)
    ensures r.Some? <==> (forall c :: c in Fillable ==> c in a) &&
                         (forall c :: c in Fillable && c != "thumbnail" ==> a[c].Some?)
    ensures r.Some? ==> r.value.id == id && r.value.thumbnail == a["thumbnail"]
  {
    if (forall c :: c in Fillable ==> c in a) && (forall c :: c in Fillable && c != "thumbnail" ==> a[c].Some?)
    then Some(Media(id, a["model_type"].value, a["model_id"].value, a["media"].value, a["thumbnail"],
                    a["type"].value, a["collection"].value, a["disk"].value, a["path"].value))
    else None
  }

  /** A row is determined by its id and its mass-assignable attributes. */
  lemma AttributesRoundTrip(m: Media)
    ensures FromAttributes(m.id, Attributes(m)) == Some(m)
  {
  }

  /** The columns the scopes filter on. */
  datatype Column = CollectionColumn | DiskColumn | TypeColumn

  function ColumnValue(m: Media, c: Column): string
  {
    match c
    case CollectionColumn => m.collection
    case DiskColumn => m.disk
    case TypeColumn => m.fileType
  }

  /** `where(column, value)`: exact string equality, input order kept. */
  function Where(q: seq<Media>, c: Column, v: string): (r: seq<Media>)
    ensures forall m :: m in r <==> m in q && ColumnValue(m, c) == v
  {
    Filter(q, (m: Media) => ColumnValue(m, c) == v)
  }

  /** `scopeFromCollection`: exactly the rows whose collection is `collection`. */
  function FromCollection(q: seq<Media>, collection: string): (r: seq<Media>)
    ensures forall m :: m in r <==> m in q && m.collection == collection
  {
    Where(q, CollectionColumn, collection)
  }

  /** `scopeFromDisk`: exactly the rows stored on `disk`. */
  function FromDisk(q: seq<Media>, disk: string): (r: seq<Media>)
    ensures forall m :: m in r <==> m in q && m.disk == disk
  {
    Where(q, DiskColumn, disk)
  }

  /** `scopeWhereType`: exactly the rows whose type is `fileType`. */
  function WhereType(q: seq<Media>, fileType: string): (r: seq<Media>)
    ensures forall m :: m in r <==> m in q && m.fileType == fileType
  {
    Where(q, TypeColumn, fileType)
  }

  /** A scope returns a sub-multiset of its input: it never duplicates a row. */
  lemma WhereSubMultiset(q: seq<Media>, c: Column, v: string)
    ensures multiset(Where(q, c, v)) <= multiset(q)
  {
    FilterSubMultiset(q, (m: Media) => ColumnValue(m, c) == v);
  }

  /** A scope applied twice selects what it selects once. */
  lemma WhereIdempotent(q: seq<Media>, c: Column, v: string)
    ensures Where(Where(q, c, v), c, v) == Where(q, c, v)
  {
    FilterIdempotent(q, (m: Media) => ColumnValue(m, c) == v);
  }

  /** A scope keeps the relative order of the rows it selects. */
  lemma WhereKeepsOrder(a: seq<Media>, b: seq<Media>, c: Column, v: string)
    ensures Where(a + b, c, v) == Where(a, c, v) + Where(b, c, v)
  {
    FilterConcat(a, b, (m: Media) => ColumnValue(m, c) == v);
  }

  /** No two rows share an id (the table's primary key). */
  ghost predicate UniqueIds(q: seq<Media>)
  {
    forall i, j :: 0 <= i < |q| && 0 <= j < |q| && i != j ==> q[i].id != q[j].id
  }

  /** The ids of a list of rows. */
  function IdsOf(q: seq<Media>): set<nat>
  {
    if q == [] then {} else IdsOf(q[..|q| - 1]) + {q[|q| - 1].id}
  }

  /** An id is among the ids of some rows exactly when one of those rows has it. */
  lemma {:induction false} IdsOfMembers(q: seq<Media>)
    ensures forall x :: x in IdsOf(q) <==> exists m :: m in q && m.id == x
  {
    if q != [] {
      var init := q[..|q| - 1];
      IdsOfMembers(init);
      assert q == init + [q[|q| - 1]];
    }
  }

  /** Extending a prefix by one row adds that row's id. */
  lemma IdsOfPrefix(q: seq<Media>, i: nat)
    requires i < |q|
    ensures IdsOf(q[..i + 1]) == IdsOf(q[..i]) + {q[i].id}
  {
    assert q[..i + 1][..i] == q[..i];
  }

  /** `Media::find(id)`: the row with that id, wherever its owner. */
  function FindIn(q: seq<Media>, id: nat): (r: Option<Media>)
    ensures r.Some? <==> exists m :: m in q && m.id == id
    ensures r.Some? ==> r.value in q && r.value.id == id
  {
    if q == [] then None
    else if q[0].id == id then Some(q[0])
    else FindIn(q[1..], id)
  }

  /** With unique ids, the row `find` returns is the only one with that id. */
  lemma FindInUnique(q: seq<Media>, m: Media)
    requires UniqueIds(q)
    requires m in q
    ensures FindIn(q, m.id) == Some(m)
  {
    var f := FindIn(q, m.id).value;
    var i :| 0 <= i < |q| && q[i] == m;
    var j :| 0 <= j < |q| && q[j] == f;
    assert i == j;
  }

  /** The table after deleting every row whose id is in `ids`. */
  function RemoveIds(q: seq<Media>, ids: set<nat>): (r: seq<Media>)
    ensures forall m :: m in r <==> m in q && m.id !in ids
  {
    Filter(q, (m: Media) => m.id !in ids)
  }

  /** Deleting no ids leaves the table as it is. */
  lemma {:induction false} RemoveNoIds(q: seq<Media>)
    ensures RemoveIds(q, {}) == q
  {
    if q != [] {
      RemoveNoIds(q[1..]);
      assert q == [q[0]] + q[1..];
    }
  }

  /** Deleting one set of ids and then another deletes their union. */
  lemma {:induction false} RemoveIdsUnion(q: seq<Media>, a: set<nat>, b: set<nat>)
    ensures RemoveIds(RemoveIds(q, a), b) == RemoveIds(q, a + b)
  {
    if q != [] {
      RemoveIdsUnion(q[1..], a, b);
      var ra := RemoveIds(q, a);
      if q[0].id in a {
        assert ra == RemoveIds(q[1..], a);
      } else {
        assert ra == [q[0]] + RemoveIds(q[1..], a);
        assert ra[0] == q[0] && ra[1..] == RemoveIds(q[1..], a);
      }
    }
  }

  /** Deleting rows keeps the remaining ids unique. */
  lemma {:induction false} RemoveIdsUnique(q: seq<Media>, ids: set<nat>)
    requires UniqueIds(q)
    ensures UniqueIds(RemoveIds(q, ids))
  {
    if q != [] {
      var tail := q[1..];
      assert UniqueIds(tail) by {
        forall i, j | 0 <= i < |tail| && 0 <= j < |tail| && i != j
          ensures tail[i].id != tail[j].id
        {
          assert tail[i] == q[i + 1] && tail[j] == q[j + 1];
        }
      }
      RemoveIdsUnique(tail, ids);
      var r := RemoveIds(tail, ids);
      if q[0].id !in ids {
        var s := [q[0]] + r;
        assert RemoveIds(q, ids) == s;
        forall i, j | 0 <= i < |s| && 0 <= j < |s| && i != j
          ensures s[i].id != s[j].id
        {
          if i == 0 || j == 0 {
            var k := if i == 0 then j else i;
            assert s[k] == r[k - 1] && s[k] in tail;
            var t :| 0 <= t < |tail| && tail[t] == s[k];
            assert q[t + 1] == s[k];
          } else {
            assert s[i] == r[i - 1] && s[j] == r[j - 1];
          }
        }
      }
    }
  }

  /** With unique ids, deleting the ids of some of the rows deletes exactly those rows. */
  lemma RemoveRowsExactly(q: seq<Media>, victims: seq<Media>)
    requires UniqueIds(q)
    requires forall v :: v in victims ==> v in q
    ensures forall m :: m in RemoveIds(q, IdsOf(victims)) <==> m in q && m !in victims
  {
    IdsOfMembers(victims);
    forall m | m in q && m.id in IdsOf(victims) ensures m in victims {
      var v :| v in victims && v.id == m.id;
      var i :| 0 <= i < |q| && q[i] == m;
      var j :| 0 <= j < |q| && q[j] == v;
      assert i == j;
    }
  }

  /**
   * `$media->update(['media' => .., 'thumbnail' => .., 'type' => ..])`: the row
   * with that id gets the three new values; every other column and every
   * other row stays as it was.
   */
  function UpdateFields(q: seq<Media>, id: nat, media: string, thumbnail: Option<string>, fileType: string): (r: seq<Media>)
    ensures |r| == |q|
    ensures forall i :: 0 <= i < |q| && q[i].id != id ==> r[i] == q[i]
    ensures forall i :: 0 <= i < |q| && q[i].id == id ==>
      r[i].media == media && r[i].thumbnail == thumbnail && r[i].fileType == fileType
    ensures forall i :: 0 <= i < |q| ==>
      r[i].id == q[i].id && r[i].modelType == q[i].modelType && r[i].modelId == q[i].modelId &&
      r[i].collection == q[i].collection && r[i].disk == q[i].disk && r[i].path == q[i].path
  {
    seq(|q|, i requires 0 <= i < |q| =>
      if q[i].id == id then q[i].(media := media, thumbnail := thumbnail, fileType := fileType) else q[i])
  }
}
