/** The owner's page for one album (AlbumAdmin.jsx): loading the album and its
    memories, publishing a new memory (photo upload, then the row), and the
    share link with its copy text and QR code. */
module AlbumAdminPage {
  import opened Util
  import opened Records
  import opened PublicUrl
  import opened StoragePath
  import opened Backend

  /** The text copyLink puts on the clipboard around the link. */
  const ShareIntro: string := "\U{2728} Fiz um \U{E1}lbum de recorda\U{E7}\U{F5}es pra voc\U{EA}:\n"
  const ShareOutro: string := "\n\nDepois me conta qual foto te deixou mais feliz \U{1F49B}"

  /** What the page shows: the album, its memories and the status line. */
  datatype View = View(album: Option<Album>, items: seq<Memory>, msg: Status)

  /** The answer of the album lookup `.eq("id", id).single()`. */
  function AlbumLookup(albums: seq<Album>, id: Id, fault: Option<string>): Reply<Album> {
    if fault.Some? then Err(fault.value) else Single(AlbumsWhere(albums, ById(id)))
  }

  /** The view after load(): the status is cleared; a failed album lookup
      shows its message and keeps album and list; otherwise the album is
      set, and the list becomes the album's memories unless that query fails,
      in which case its message is shown and the old list stays. */
  function AfterLoad(v: View, albums: seq<Album>, memories: seq<Memory>, id: Id,
                     albumFault: Option<string>, memFault: Option<string>): View
  {
    match AlbumLookup(albums, id, albumFault)
    case Err(e) => View(v.album, v.items, Says(e))
    case Ok(a) =>
      if memFault.Some? then View(Some(a), v.items, Says(memFault.value))
      else View(Some(a), MemoriesOf(memories, id), Blank)
  }

  /** The requests load() issues: the memories query only after the album
      was found. */
  function LoadRequests(albums: seq<Album>, id: Id, albumFault: Option<string>): (r: seq<Request>)
    ensures 1 <= |r| <= 2 && r[0] == GetAlbumById(id)
    ensures ListMemories(id) in r <==> AlbumLookup(albums, id, albumFault).Ok?
  {
    if AlbumLookup(albums, id, albumFault).Ok? then [GetAlbumById(id), ListMemories(id)]
    else [GetAlbumById(id)]
  }

  /** A successful load shows the album whose id is the route's, and exactly
      the memories of that album. */
  lemma LoadShowsThatAlbum(v: View, albums: seq<Album>, memories: seq<Memory>, id: Id,
                           albumFault: Option<string>, memFault: Option<string>)
    requires albumFault.None? && memFault.None?
    requires |AlbumsWhere(albums, ById(id))| == 1
    ensures var w := AfterLoad(v, albums, memories, id, albumFault, memFault);
      && w.album.Some? && w.album.value.id == id && w.album.value in albums
      && (forall m :: m in w.items <==> m in memories && m.albumId == id)
      && w.msg == Blank
  {
    var a := AlbumsWhere(albums, ById(id))[0];
    assert a in AlbumsWhere(albums, ById(id));
  }

  /** `.single()` finds the album exactly when one row holds the route's id:
      a unique id is found and loaded ... */
  lemma UniqueIdFound(v: View, albums: seq<Album>, memories: seq<Memory>, id: Id, i: nat)
    requires i < |albums| && albums[i].id == id
    requires forall j :: 0 <= j < |albums| && j != i ==> albums[j].id != id
    ensures AlbumLookup(albums, id, None) == Ok(albums[i])
    ensures AfterLoad(v, albums, memories, id, None, None) == View(Some(albums[i]), MemoriesOf(memories, id), Blank)
  {
    OnlyMatch(albums, ById(id), i);
  }

  /** ... while an id held by no row, or by two rows, is not found, and the
      view keeps its album and list. */
  lemma MissingOrSharedIdNotFound(v: View, albums: seq<Album>, memories: seq<Memory>, id: Id,
                                  memFault: Option<string>)
    requires (forall j :: 0 <= j < |albums| ==> albums[j].id != id)
      || (exists i, j :: 0 <= i < j < |albums| && albums[i].id == id && albums[j].id == id)
    ensures AlbumLookup(albums, id, None) == Err(NotExactlyOneRow)
    ensures AfterLoad(v, albums, memories, id, None, memFault) == v.(msg := Says(NotExactlyOneRow))
  {
    if forall j :: 0 <= j < |albums| ==> albums[j].id != id {
      NoMatch(albums, ById(id));
    } else {
      var i, j :| 0 <= i < j < |albums| && albums[i].id == id && albums[j].id == id;
      TwoMatches(albums, ById(id), i, j);
    }
  }

  /** A failed album lookup leaves the album and the list as they were and
      shows why. */
  lemma LoadFailureKeepsView(v: View, albums: seq<Album>, memories: seq<Memory>, id: Id,
                             albumFault: Option<string>, memFault: Option<string>)
    requires AlbumLookup(albums, id, albumFault).Err?
    ensures var w := AfterLoad(v, albums, memories, id, albumFault, memFault);
      && w.album == v.album && w.items == v.items
      && w.msg == Says(if albumFault.Some? then albumFault.value else NotExactlyOneRow)
  {
  }

  /** Loading again against the same store changes nothing more. */
  lemma LoadIdempotent(v: View, albums: seq<Album>, memories: seq<Memory>, id: Id,
                       albumFault: Option<string>, memFault: Option<string>)
    ensures var w := AfterLoad(v, albums, memories, id, albumFault, memFault);
      AfterLoad(w, albums, memories, id, albumFault, memFault) == w
  {
  }

  /** The upload path for a picked file: in the album's folder, named by the
      token and the file's extension. */
  function PhotoPath(albumId: Id, token: string, photo: File): (r: string)
    ensures "albums/" + albumId + "/" <= r
    ensures Extension(r) == Extension(photo.name)
  {
    AlbumPathKeepsExtension(albumId, token, photo.name);
    AlbumPhotoPath(albumId, token, Extension(photo.name))
  }

  /** Distinct tokens give distinct upload paths within an album, so a
      fresh token never collides with an earlier photo. */
  lemma PhotoPathsDistinct(albumId: Id, t1: string, p1: File, t2: string, p2: File)
    requires t1 != t2
    ensures PhotoPath(albumId, t1, p1) != PhotoPath(albumId, t2, p2)
  {
    if PhotoPath(albumId, t1, p1) == PhotoPath(albumId, t2, p2) {
      AlbumPathInjective(albumId, t1, Extension(p1.name), t2, Extension(p2.name));
    }
  }

  /** The row addMemory inserts: the four text fields trimmed, the album id
      and the public address of the uploaded photo. */
  function NewMemoryRow(albumId: Id, form: MemoryForm, photoUrl: string): MemoryInsert {
    MemoryInsert(albumId, FormText(form.title), FormText(form.place), FormText(form.time),
                 FormText(form.description), photoUrl)
  }

  /** The text fields of the row are trimmed: no white space at either end,
      and trimming again changes nothing. */
  lemma NewMemoryRowIsTrimmed(albumId: Id, form: MemoryForm, photoUrl: string)
    ensures var r := NewMemoryRow(albumId, form, photoUrl);
      && Trim(r.title) == r.title && Trim(r.place) == r.place
      && Trim(r.time) == r.time && Trim(r.description) == r.description
      && (r.title == [] || (r.title[0] !in JsSpaces && r.title[|r.title| - 1] !in JsSpaces))
  {
    TrimIdempotent(form.title.GetOr(""));
    TrimIdempotent(form.place.GetOr(""));
    TrimIdempotent(form.time.GetOr(""));
    TrimIdempotent(form.description.GetOr(""));
    TrimLeavesNoSpaceAtEnds(form.title.GetOr(""));
  }

  class AlbumAdmin {
    /** The route parameter: the album's id. */
    const id: Id
    /** `getBaseUrl()` while the page is open. */
    const baseUrl: string
    var album: Option<Album>
    var items: seq<Memory>
    var msg: Status
    var saving: bool
    var qrDataUrl: string
    const db: Backend

    constructor (id: Id, origin: string, pathname: string, db: Backend)
      ensures this.id == id && baseUrl == GetBaseUrl(origin, pathname) && this.db == db
      ensures album.None? && items == [] && msg.Blank? && !saving && qrDataUrl == ""
    {
      this.id, this.baseUrl, this.db := id, GetBaseUrl(origin, pathname), db;
      album, items, msg, saving, qrDataUrl := None, [], Blank, false, "";
    }

    function ViewState(): View
      reads this
    {
      View(album, items, msg)
    }

    /** `publicLink`: empty until the album is loaded. */
    function PublicLink(): (r: string)
      reads this
      ensures album.None? ==> r == ""
      ensures album.Some? ==> r == AlbumPublicLink(baseUrl, album.value.slug)
    {
      if album.Some? then AlbumPublicLink(baseUrl, album.value.slug) else ""
    }

    /** copyLink: the text handed to the clipboard. */
    method CopyLink() returns (text: string)
      ensures text == ShareText(ShareIntro, PublicLink(), ShareOutro)
      ensures Contains(text, PublicLink())
    {
      text := ShareText(ShareIntro, PublicLink(), ShareOutro);
    }

    /** The QR effect: once an album is loaded, the code of its link;
        `encode` stands for QRCode.toDataURL with the page's options. */
    method RefreshQr(encode: string -> string)
      modifies this`qrDataUrl
      ensures album.None? ==> qrDataUrl == old(qrDataUrl)
      ensures album.Some? ==> qrDataUrl == encode(AlbumPublicLink(baseUrl, album.value.slug))
    {
      if album.Some? {
        qrDataUrl := encode(PublicLink());
      }
    }

    /** load(). */
    method Load(albumFault: Option<string>, memFault: Option<string>)
      modifies this`album, this`items, this`msg, db`log
      ensures ViewState() == AfterLoad(old(ViewState()), db.albums, db.memories, id, albumFault, memFault)
      ensures db.log == old(db.log) + LoadRequests(db.albums, id, albumFault)
    {
      msg := Blank;
      var ar := db.SelectAlbumById(id, albumFault);
      if ar.Err? {
        msg := Says(ar.message);
        return;
      }
      album := Some(ar.data);
      var mr := db.SelectMemories(id, memFault);
      if mr.Err? {
        msg := Says(mr.message);
      } else {
        items := mr.data;
      }
    }

    /** The remote part of addMemory once a photo was picked: the upload to
        a fresh path, then the row pointing at the uploaded photo. The row is
        inserted only after the upload succeeded, so a memory never points at
        a missing photo. */
    method SubmitMemory(a: Album, form: MemoryForm, token: string, uploadFault: Option<string>,
                        newId: Id, createdAt: string, insertFault: Option<string>)
      returns (err: Option<string>)
      requires HasPhoto(form)
      modifies db`blobs, db`memories, db`log
      ensures var path := PhotoPath(a.id, token, form.photo.value);
        var uploaded := uploadFault.None? && path !in old(db.blobs);
        var row := NewMemoryRow(a.id, form, db.PublicUrlOf(path));
        && (!uploaded ==>
              && err == (if uploadFault.Some? then uploadFault else Some(PathTaken))
              && db.log == old(db.log) + [UploadReq(path)]
              && db.blobs == old(db.blobs) && db.memories == old(db.memories))
        && (uploaded ==>
              && err == insertFault
              && db.log == old(db.log) + [UploadReq(path)] + [InsertMemoryReq(row)]
              && db.blobs == old(db.blobs)[path := form.photo.value]
              && db.memories == (if insertFault.Some? then old(db.memories)
                                 else old(db.memories) + [Memory(newId, a.id, row.title, row.place,
                                                                 row.time, row.description,
                                                                 row.photoUrl, createdAt)]))
    {
      var file := form.photo.value;
      var path := PhotoPath(a.id, token, file);
      err := db.Upload(path, file, uploadFault);
      if err.Some? {
        return;
      }
      var row := NewMemoryRow(a.id, form, db.PublicUrlOf(path));
      err := db.InsertMemory(row, newId, createdAt, insertFault);
    }

    /** addMemory. Nothing happens before the album is loaded. Otherwise the
        status reads "Salvando..." while saving; a missing photo fails with
        no request; an upload or insert error is shown after "Erro: "; a
        success shows "Salvo ✅" and reloads, and the reload's outcome is
        what stays on screen. Saving is off again after every outcome. */
    method AddMemory(form: MemoryForm, token: string, uploadFault: Option<string>, newId: Id,
                     createdAt: string, insertFault: Option<string>,
                     albumFault: Option<string>, memFault: Option<string>)
      modifies this`album, this`items, this`msg, this`saving, db`blobs, db`memories, db`log
      ensures old(album).None? ==>
        && ViewState() == old(ViewState()) && saving == old(saving)
        && db.log == old(db.log) && db.blobs == old(db.blobs) && db.memories == old(db.memories)
      ensures old(album).Some? ==> !saving
      ensures old(album).Some? && !HasPhoto(form) ==>
        && ViewState() == old(ViewState()).(msg := Failed(MissingPhoto))
        && db.log == old(db.log) && db.blobs == old(db.blobs) && db.memories == old(db.memories)
      ensures old(album).Some? && HasPhoto(form) ==>
        var path := PhotoPath(old(album).value.id, token, form.photo.value);
        var uploaded := uploadFault.None? && path !in old(db.blobs);
        var stored := uploaded && insertFault.None?;
        var row := NewMemoryRow(old(album).value.id, form, db.PublicUrlOf(path));
        && db.blobs == (if uploaded then old(db.blobs)[path := form.photo.value] else old(db.blobs))
        && db.log == old(db.log) + [UploadReq(path)]
                     + (if uploaded then [InsertMemoryReq(row)] else [])
                     + (if stored then LoadRequests(db.albums, id, albumFault) else [])
        && (!stored ==> db.memories == old(db.memories) && album == old(album) && items == old(items))
        && (!stored ==> msg == Failed(if uploadFault.Some? then uploadFault.value
                                      else if !uploaded then PathTaken else insertFault.value))
        && (stored ==> db.memories == old(db.memories) + [Memory(newId, old(album).value.id, row.title,
                                                                 row.place, row.time, row.description,
                                                                 row.photoUrl, createdAt)])
        && (stored ==> ViewState() == AfterLoad(old(ViewState()), db.albums, db.memories, id, albumFault, memFault))
    {
      if album.None? {
        return;
      }
      var a := album.value;
      saving := true;
      msg := Saving;
      if !HasPhoto(form) {
        msg := Failed(MissingPhoto);
        saving := false;
        return;
      }
      var err := SubmitMemory(a, form, token, uploadFault, newId, createdAt, insertFault);
      if err.Some? {
        msg := Failed(err.value);
      } else {
        msg := Saved;
        Load(albumFault, memFault);
      }
      saving := false;
    }
  }
}
