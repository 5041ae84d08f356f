/** The managed backend as the pages see it: a record store with the
    `albums`, `memories` and legacy `memorias` tables, and the `fotos` blob
    bucket keyed by path. Each remote call takes a `fault`: the error the
    provider reports on that call (network, row-level security, a database
    constraint), or None when it succeeds. The ghost `log` records the
    requests issued, in order. */
module Backend {
  import opened Util
  import opened Records

  /** What a remote call answers: `{ data }` or `{ error }`. */
  datatype Reply<T> = Ok(data: T) | Err(message: string)

  datatype Request =
    | ListAlbums
    | GetAlbumById(id: Id)
    | GetAlbumBySlug(slug: string)
    | ListMemories(albumId: Id)
    | InsertAlbumReq(row: AlbumInsert)
    | UpdateAlbumReq(update: AlbumUpdate)
    | UploadReq(path: string)
    | InsertMemoryReq(mrow: MemoryInsert)
    | InsertLegacyReq(lrow: LegacyMemory)

  /** The error `.single()` reports when the filter does not match exactly one row. */
  const NotExactlyOneRow: string := "JSON object requested, multiple (or no) rows returned"

  /** The error the bucket reports for an upload to a taken path with `upsert: false`. */
  const PathTaken: string := "The resource already exists"

  /** `.single()` over the matching rows. */
  function Single<T>(rows: seq<T>): (r: Reply<T>)
    ensures r.Ok? <==> |rows| == 1
    ensures r.Ok? ==> r.data == rows[0]
    ensures r.Err? ==> r.message == NotExactlyOneRow
  {
    if |rows| == 1 then Ok(rows[0]) else Err(NotExactlyOneRow)
  }

  /** The column an album lookup filters on. */
  datatype AlbumKey = ById(id: Id) | BySlug(slug: string)

  predicate Matches(a: Album, key: AlbumKey) {
    match key
    case ById(id) => a.id == id
    case BySlug(slug) => a.slug == slug
  }

  /** `.eq("id", id)` or `.eq("slug", slug)` on albums: every matching row,
      as often as it occurs, and nothing else. */
  function AlbumsWhere(rows: seq<Album>, key: AlbumKey): (r: seq<Album>)
    ensures forall a :: a in r <==> a in rows && Matches(a, key)
  {
    if rows == [] then []
    else (if Matches(rows[0], key) then [rows[0]] else []) + AlbumsWhere(rows[1..], key)
  }

  /** The filter keeps each matching row as often as the table holds it, so
      `.single()` sees how many rows match. */
  lemma {:induction false} AlbumsWhereCounts(rows: seq<Album>, key: AlbumKey)
    ensures forall a :: multiset(AlbumsWhere(rows, key))[a] == if Matches(a, key) then multiset(rows)[a] else 0
  {
    if rows != [] {
      assert rows == [rows[0]] + rows[1..];
      AlbumsWhereCounts(rows[1..], key);
    }
  }

  /** Two matching rows make the filter answer at least two rows. */
  lemma {:induction false} TwoMatches(rows: seq<Album>, key: AlbumKey, i: nat, j: nat)
    requires i < j < |rows| && Matches(rows[i], key) && Matches(rows[j], key)
    ensures |AlbumsWhere(rows, key)| >= 2
    decreases |rows|
  {
    if i == 0 {
      var k := j - 1;
      assert rows[1..][k] == rows[j];
      assert rows[j] in AlbumsWhere(rows[1..], key);
    } else {
      TwoMatches(rows[1..], key, i - 1, j - 1);
    }
  }

  /** A row that is the only match is the whole answer of the filter. */
  lemma {:induction false} OnlyMatch(rows: seq<Album>, key: AlbumKey, i: nat)
    requires i < |rows| && Matches(rows[i], key)
    requires forall j :: 0 <= j < |rows| && j != i ==> !Matches(rows[j], key)
    ensures AlbumsWhere(rows, key) == [rows[i]]
    decreases |rows|
  {
    if i == 0 {
      var rest := AlbumsWhere(rows[1..], key);
      forall x | x in rows[1..]
        ensures !Matches(x, key)
      {
        var k :| 0 <= k < |rows[1..]| && rows[1..][k] == x;
        assert rows[k + 1] == x;
      }
      AlbumsWhereCounts(rows[1..], key);
      assert multiset(rest) == multiset{};
      assert |rest| == |multiset(rest)|;
    } else {
      forall j | 0 <= j < |rows[1..]| && j != i - 1
        ensures !Matches(rows[1..][j], key)
      {
        assert rows[1..][j] == rows[j + 1];
      }
      OnlyMatch(rows[1..], key, i - 1);
    }
  }

  /** Without a matching row the filter answers nothing. */
  lemma NoMatch(rows: seq<Album>, key: AlbumKey)
    requires forall j :: 0 <= j < |rows| ==> !Matches(rows[j], key)
    ensures AlbumsWhere(rows, key) == []
  {
    var r := AlbumsWhere(rows, key);
    forall x | x in rows
      ensures !Matches(x, key)
    {
      var k :| 0 <= k < |rows| && rows[k] == x;
    }
    AlbumsWhereCounts(rows, key);
    assert multiset(r) == multiset{};
    assert |r| == |multiset(r)|;
  }

  /** `.eq("album_id", albumId)` on memories: every memory of that album, as
      often as it occurs, and nothing else. */
  function MemoriesOf(rows: seq<Memory>, albumId: Id): (r: seq<Memory>)
    ensures forall m :: m in r <==> m in rows && m.albumId == albumId
  {
    if rows == [] then []
    else (if rows[0].albumId == albumId then [rows[0]] else []) + MemoriesOf(rows[1..], albumId)
  }

  /** The memories query keeps each memory of the album as often as the
      table holds it. */
  lemma {:induction false} MemoriesOfCounts(rows: seq<Memory>, albumId: Id)
    ensures forall m :: multiset(MemoriesOf(rows, albumId))[m] == if m.albumId == albumId then multiset(rows)[m] else 0
  {
    if rows != [] {
      assert rows == [rows[0]] + rows[1..];
      MemoriesOfCounts(rows[1..], albumId);
    }
  }

  /** `.update({title, slug}).eq("id", id)`: every row with that id takes the
      new title and slug; every other row, and every other column, stays. */
  function UpdateWhereId(rows: seq<Album>, u: AlbumUpdate): (r: seq<Album>)
    ensures |r| == |rows|
    ensures forall i :: 0 <= i < |rows| && rows[i].id != u.id ==> r[i] == rows[i]
    ensures forall i :: 0 <= i < |rows| && rows[i].id == u.id ==>
      r[i] == rows[i].(title := u.title, slug := u.slug)
  {
    if rows == [] then []
    else
      var a := rows[0];
      [if a.id == u.id then a.(title := u.title, slug := u.slug) else a] + UpdateWhereId(rows[1..], u)
  }

  /** The path of the public `fotos` bucket below the storage endpoint. */
  const PublicBucketPath: string := "/object/public/fotos/"

  /** The public address of a path of the `fotos` bucket. */
  function PublicAddress(storageBase: string, path: string): (r: string)
    ensures storageBase + PublicBucketPath <= r
    ensures r[|storageBase| + |PublicBucketPath|..] == path
  {
    storageBase + PublicBucketPath + path
  }

  /** Distinct paths have distinct public addresses. */
  lemma PublicAddressInjective(storageBase: string, p: string, q: string)
    requires PublicAddress(storageBase, p) == PublicAddress(storageBase, q)
    ensures p == q
  {
    assert PublicAddress(storageBase, p)[|storageBase| + |PublicBucketPath|..] == p;
  }

  class Backend {
    var albums: seq<Album>
    var memories: seq<Memory>
    var legacy: seq<LegacyMemory>
    var blobs: map<string, File>
    /** The storage endpoint public addresses are formed from. */
    const storageBase: string
    ghost var log: seq<Request>

    constructor (storageBase: string)
      ensures this.storageBase == storageBase
      ensures albums == [] && memories == [] && legacy == [] && blobs == map[] && log == []
    {
      this.storageBase := storageBase;
      albums, memories, legacy, blobs := [], [], [], map[];
      log := [];
    }

    /** `getPublicUrl(path).data.publicUrl`: computed locally, no request. */
    function PublicUrlOf(path: string): string {
      PublicAddress(storageBase, path)
    }

    /** `storage.from("fotos").upload(path, file, { upsert: false })`. */
    method Upload(path: string, file: File, fault: Option<string>) returns (err: Option<string>)
      modifies this`blobs, this`log
      ensures log == old(log) + [UploadReq(path)]
      ensures err.None? <==> fault.None? && path !in old(blobs)
      ensures fault.Some? ==> err == fault
      ensures fault.None? && path in old(blobs) ==> err == Some(PathTaken)
      ensures blobs == if err.None? then old(blobs)[path := file] else old(blobs)
    {
      log := log + [UploadReq(path)];
      if fault.Some? {
        err := fault;
      } else if path in blobs {
        err := Some(PathTaken);
      } else {
        blobs := blobs[path := file];
        err := None;
      }
    }

    /** `from("albums").select("*")`; the `order` clause is not modelled. */
    method SelectAlbums(fault: Option<string>) returns (r: Reply<seq<Album>>)
      modifies this`log
      ensures log == old(log) + [ListAlbums]
      ensures r == if fault.Some? then Err(fault.value) else Ok(albums)
    {
      log := log + [ListAlbums];
      r := if fault.Some? then Err(fault.value) else Ok(albums);
    }

    /** `from("albums").select("*").eq("id", id).single()`. */
    method SelectAlbumById(id: Id, fault: Option<string>) returns (r: Reply<Album>)
      modifies this`log
      ensures log == old(log) + [GetAlbumById(id)]
      ensures r == if fault.Some? then Err(fault.value) else Single(AlbumsWhere(albums, ById(id)))
    {
      log := log + [GetAlbumById(id)];
      r := if fault.Some? then Err(fault.value) else Single(AlbumsWhere(albums, ById(id)));
    }

    /** `from("albums").select("*").eq("slug", slug).single()`. */
    method SelectAlbumBySlug(slug: string, fault: Option<string>) returns (r: Reply<Album>)
      modifies this`log
      ensures log == old(log) + [GetAlbumBySlug(slug)]
      ensures r == if fault.Some? then Err(fault.value) else Single(AlbumsWhere(albums, BySlug(slug)))
    {
      log := log + [GetAlbumBySlug(slug)];
      r := if fault.Some? then Err(fault.value) else Single(AlbumsWhere(albums, BySlug(slug)));
    }

    /** `from("memories").select("*").eq("album_id", albumId)`; the `order`
        clause is not modelled. */
    method SelectMemories(albumId: Id, fault: Option<string>) returns (r: Reply<seq<Memory>>)
      modifies this`log
      ensures log == old(log) + [ListMemories(albumId)]
      ensures r == if fault.Some? then Err(fault.value) else Ok(MemoriesOf(memories, albumId))
    {
      log := log + [ListMemories(albumId)];
      r := if fault.Some? then Err(fault.value) else Ok(MemoriesOf(memories, albumId));
    }

    /** `from("albums").insert(row)`; the store assigns `newId` and `createdAt`. */
    method InsertAlbum(row: AlbumInsert, newId: Id, createdAt: string, fault: Option<string>)
      returns (err: Option<string>)
      modifies this`albums, this`log
      ensures log == old(log) + [InsertAlbumReq(row)]
      ensures err == fault
      ensures albums == if fault.Some? then old(albums)
        else old(albums) + [Album(newId, row.ownerId, row.title, row.slug, row.isPublic, createdAt)]
    {
      log := log + [InsertAlbumReq(row)];
      err := fault;
      if fault.None? {
        albums := albums + [Album(newId, row.ownerId, row.title, row.slug, row.isPublic, createdAt)];
      }
    }

    /** `from("albums").update({title, slug}).eq("id", id)`. */
    method UpdateAlbum(u: AlbumUpdate, fault: Option<string>) returns (err: Option<string>)
      modifies this`albums, this`log
      ensures log == old(log) + [UpdateAlbumReq(u)]
      ensures err == fault
      ensures albums == if fault.Some? then old(albums) else UpdateWhereId(old(albums), u)
    {
      log := log + [UpdateAlbumReq(u)];
      err := fault;
      if fault.None? {
        albums := UpdateWhereId(albums, u);
      }
    }

    /** `from("memories").insert(row)`; the store assigns `newId` and `createdAt`. */
    method InsertMemory(row: MemoryInsert, newId: Id, createdAt: string, fault: Option<string>)
      returns (err: Option<string>)
      modifies this`memories, this`log
      ensures log == old(log) + [InsertMemoryReq(row)]
      ensures err == fault
      ensures memories == if fault.Some? then old(memories)
        else old(memories) + [Memory(newId, row.albumId, row.title, row.place, row.time,
                                     row.description, row.photoUrl, createdAt)]
    {
      log := log + [InsertMemoryReq(row)];
      err := fault;
      if fault.None? {
        memories := memories + [Memory(newId, row.albumId, row.title, row.place, row.time,
                                       row.description, row.photoUrl, createdAt)];
      }
    }

    /** `from("memorias").insert(row)`. */
    method InsertLegacy(row: LegacyMemory, fault: Option<string>) returns (err: Option<string>)
      modifies this`legacy, this`log
      ensures log == old(log) + [InsertLegacyReq(row)]
      ensures err == fault
      ensures legacy == if fault.Some? then old(legacy) else old(legacy) + [row]
    {
      log := log + [InsertLegacyReq(row)];
      err := fault;
      if fault.None? {
        legacy := legacy + [row];
      }
    }
  }
}
