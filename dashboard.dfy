/** The owner's album dashboard (Dashboard.jsx): the new-album form with its
    slug auto-fill, album creation and editing, the share text, and the QR and
    menu toggles of the album cards. */
module DashboardPage {
  import opened Util
  import opened Records
  import opened Slug
  import opened PublicUrl
  import opened Backend

  /** The text copyFofo puts on the clipboard around the link. */
  const ShareIntro: string := "\U{2728} Separei um \U{E1}lbum de recorda\U{E7}\U{F5}es pra voc\U{EA}:\n"
  const ShareOutro: string := "\n\nDepois me conta qual foto voc\U{EA} mais gostou \U{1F49B}"

  /** The slug field after the title field changed (the effect on `title`):
      filled from the title only when the slug is empty and the title is not;
      a slug already there is never overwritten. */
  function AutoFilledSlug(slug: string, title: string): (r: string)
    ensures slug != "" ==> r == slug
    ensures slug == "" && title != "" ==> r == MakeSlug(title)
    ensures title == "" ==> r == slug
  {
    if slug == "" && title != "" then MakeSlug(title) else slug
  }

  /** The row createAlbum sends: none without an owner id; otherwise owned by
      the signed-in user, trimmed title, slug made from the slug field or, when
      that is empty, from the title, and public. */
  function NewAlbumRow(session: Option<Session>, title: string, slug: string): (r: Option<AlbumInsert>)
    ensures r.None? <==> OwnerId(session).None?
    ensures r.Some? ==> r.value.ownerId == OwnerId(session).value
    ensures r.Some? ==> r.value.title == Trim(title) && r.value.isPublic
    ensures r.Some? ==> r.value.slug == MakeSlug(if slug != "" then slug else title)
  {
    match OwnerId(session)
    case None => None
    case Some(owner) =>
      Some(AlbumInsert(owner, Trim(title), MakeSlug(if slug != "" then slug else title), true))
  }

  /** A created album's slug always has the slug shape, and is stable under
      normalizing again; an empty slug is not rejected. */
  lemma NewAlbumSlugIsNormal(session: Option<Session>, title: string, slug: string)
    requires OwnerId(session).Some?
    ensures IsSlug(NewAlbumRow(session, title, slug).value.slug)
    ensures var s := NewAlbumRow(session, title, slug).value.slug; MakeSlug(s) == s
  {
    MakeSlugIdempotent(if slug != "" then slug else title);
  }

  /** The update editAlbum sends: none when either prompt was cancelled or
      left empty; otherwise the trimmed title and the normalized slug, for the
      record with the album's id. */
  function EditRequest(a: Album, newTitle: Option<string>, newSlug: Option<string>): (r: Option<AlbumUpdate>)
    ensures r.None? <==> newTitle.GetOr("") == "" || newSlug.GetOr("") == ""
    ensures r.Some? ==> r.value.id == a.id
    ensures r.Some? ==> r.value.title == Trim(newTitle.value) && r.value.slug == MakeSlug(newSlug.value)
  {
    if newTitle.GetOr("") == "" || newSlug.GetOr("") == "" then None
    else Some(AlbumUpdate(a.id, Trim(newTitle.value), MakeSlug(newSlug.value)))
  }

  /** Applying an edit changes only the rows with the album's id, and only
      their title and slug; the new slug has the slug shape. */
  lemma EditTouchesOnlyThatAlbum(rows: seq<Album>, a: Album, newTitle: Option<string>,
                                 newSlug: Option<string>, i: int)
    requires EditRequest(a, newTitle, newSlug).Some? && 0 <= i < |rows|
    ensures var r := UpdateWhereId(rows, EditRequest(a, newTitle, newSlug).value);
      && (rows[i].id != a.id ==> r[i] == rows[i])
      && (rows[i].id == a.id ==>
            r[i].id == a.id && r[i].ownerId == rows[i].ownerId && r[i].isPublic == rows[i].isPublic
            && r[i].createdAt == rows[i].createdAt && IsSlug(r[i].slug))
  {
  }

  /** The menu toggle of a card: closes that card's menu when it is the open
      one, opens it otherwise; at most one menu is ever open. */
  function ToggledMenu(openId: Option<Id>, id: Id): (r: Option<Id>)
    ensures r == Some(id) <==> openId != Some(id)
    ensures r.None? || r == Some(id)
  {
    if openId == Some(id) then None else Some(id)
  }

  /** Toggling the same card twice restores a state where that card's menu or
      no menu was open; when another card's menu was open (the menu wrapper
      stops the click from reaching the window, so it stays open), two
      toggles leave every menu closed. */
  lemma ToggleMenuTwice(openId: Option<Id>, id: Id)
    ensures openId.None? || openId == Some(id) ==> ToggledMenu(ToggledMenu(openId, id), id) == openId
    ensures openId.Some? && openId != Some(id) ==> ToggledMenu(ToggledMenu(openId, id), id).None?
  {
  }

  /** The QR panel: the album whose code is shown, and the code image. */
  datatype QrPanel = QrPanel(album: Option<Album>, dataUrl: string)

  predicate ShowsQrFor(p: QrPanel, id: Id) {
    p.album.Some? && p.album.value.id == id
  }

  /** openQr: a second click on the album shown closes the panel and clears
      the image; a click on another album shows that album's code, the
      encoding of its share link. */
  function ToggledQr(p: QrPanel, a: Album, base: string, encode: string -> string): (r: QrPanel)
    ensures ShowsQrFor(p, a.id) ==> r == QrPanel(None, "")
    ensures !ShowsQrFor(p, a.id) ==> r.album == Some(a) && r.dataUrl == encode(AlbumPublicLink(base, a.slug))
    ensures ShowsQrFor(r, a.id) <==> !ShowsQrFor(p, a.id)
  {
    if ShowsQrFor(p, a.id) then QrPanel(None, "")
    else QrPanel(Some(a), encode(AlbumPublicLink(base, a.slug)))
  }

  class Dashboard {
    var session: Option<Session>
    var albums: seq<Album>
    var title: string
    var slug: string
    var msg: Status
    var showNew: bool
    var openMenuId: Option<Id>
    var qrAlbum: Option<Album>
    var qrDataUrl: string
    /** The memoized `window.location.origin + window.location.pathname`. */
    const baseUrl: string
    const db: Backend

    constructor (origin: string, pathname: string, db: Backend)
      ensures baseUrl == GetBaseUrl(origin, pathname) && this.db == db
      ensures session.None? && albums == [] && title == "" && slug == "" && msg.Blank?
      ensures !showNew && openMenuId.None? && qrAlbum.None? && qrDataUrl == ""
    {
      baseUrl := GetBaseUrl(origin, pathname);
      this.db := db;
      session, albums, title, slug, msg := None, [], "", "", Blank;
      showNew, openMenuId, qrAlbum, qrDataUrl := false, None, None, "";
    }

    /** loadAlbums: on success the list is replaced, on error left alone. */
    method LoadAlbums(fault: Option<string>)
      modifies this`albums, db`log
      ensures db.log == old(db.log) + [ListAlbums]
      ensures albums == if fault.Some? then old(albums) else db.albums
    {
      var r := db.SelectAlbums(fault);
      if r.Ok? {
        albums := r.data;
      }
    }

    /** The getSession and onAuthStateChange callbacks: set the session, then
        reload the albums. */
    method OnSession(s: Option<Session>, listFault: Option<string>)
      modifies this`session, this`albums, db`log
      ensures session == s
      ensures db.log == old(db.log) + [ListAlbums]
      ensures albums == if listFault.Some? then old(albums) else db.albums
    {
      session := s;
      LoadAlbums(listFault);
    }

    /** Typing in the title field; the slug effect runs when the title changed. */
    method TypeTitle(t: string)
      modifies this`title, this`slug
      ensures title == t
      ensures slug == if t != old(title) then AutoFilledSlug(old(slug), t) else old(slug)
    {
      var changed := t != title;
      title := t;
      if changed {
        slug := AutoFilledSlug(slug, title);
      }
    }

    /** Typing in the slug field. */
    method TypeSlug(s: string)
      modifies this`slug
      ensures slug == s
    {
      slug := s;
    }

    /** The "+ Novo álbum" / "Fechar" button. */
    method ToggleNew()
      modifies this`showNew
      ensures showNew == !old(showNew)
    {
      showNew := !showNew;
    }

    /** createAlbum. Without an owner id it stops after the "Criando..."
        status, with no request. Otherwise it inserts NewAlbumRow; an insert
        error is shown as it came; a success clears the form, closes the panel
        and reloads the list. */
    method CreateAlbum(newId: Id, createdAt: string, fault: Option<string>, listFault: Option<string>)
      returns (row: Option<AlbumInsert>)
      modifies this`msg, this`title, this`slug, this`showNew, this`albums, db`albums, db`log
      ensures row == NewAlbumRow(old(session), old(title), old(slug))
      ensures row.None? ==>
        && msg == Creating && db.log == old(db.log) && db.albums == old(db.albums)
        && title == old(title) && slug == old(slug) && showNew == old(showNew) && albums == old(albums)
      ensures row.Some? && fault.Some? ==>
        && msg == Says(fault.value) && db.log == old(db.log) + [InsertAlbumReq(row.value)]
        && db.albums == old(db.albums)
        && title == old(title) && slug == old(slug) && showNew == old(showNew) && albums == old(albums)
      ensures row.Some? && fault.None? ==>
        && msg == Created
        && db.log == old(db.log) + [InsertAlbumReq(row.value)] + [ListAlbums]
        && db.albums == old(db.albums) + [Album(newId, row.value.ownerId, row.value.title,
                                                row.value.slug, true, createdAt)]
        && title == "" && slug == "" && !showNew
        && albums == (if listFault.Some? then old(albums) else db.albums)
    {
      msg := Creating;
      row := NewAlbumRow(session, title, slug);
      if row.Some? {
        SubmitAlbum(row.value, newId, createdAt, fault, listFault);
      }
    }

    /** The part of createAlbum after the row is built: the insert, then the
        status and, on success, the form reset and the reload. */
    method SubmitAlbum(row: AlbumInsert, newId: Id, createdAt: string, fault: Option<string>,
                       listFault: Option<string>)
      modifies this`msg, this`title, this`slug, this`showNew, this`albums, db`albums, db`log
      ensures fault.Some? ==>
        && msg == Says(fault.value) && db.log == old(db.log) + [InsertAlbumReq(row)]
        && db.albums == old(db.albums)
        && title == old(title) && slug == old(slug) && showNew == old(showNew) && albums == old(albums)
      ensures fault.None? ==>
        && msg == Created
        && db.log == old(db.log) + [InsertAlbumReq(row)] + [ListAlbums]
        && db.albums == old(db.albums) + [Album(newId, row.ownerId, row.title, row.slug, row.isPublic, createdAt)]
        && title == "" && slug == "" && !showNew
        && albums == (if listFault.Some? then old(albums) else db.albums)
    {
      var err := db.InsertAlbum(row, newId, createdAt, fault);
      if err.Some? {
        msg := Says(err.value);
        return;
      }
      msg := Created;
      title, slug, showNew := "", "", false;
      LoadAlbums(listFault);
    }

    /** editAlbum, with the two prompt answers as parameters (None when
        cancelled). No request when EditRequest is None; on an update error the
        alert is shown and nothing else changes; on success the list reloads. */
    method EditAlbum(a: Album, newTitle: Option<string>, newSlug: Option<string>,
                     fault: Option<string>, listFault: Option<string>)
      modifies this`albums, db`albums, db`log
      ensures var u := EditRequest(a, newTitle, newSlug);
        && (u.None? ==> db.log == old(db.log) && db.albums == old(db.albums) && albums == old(albums))
        && (u.Some? && fault.Some? ==>
              db.log == old(db.log) + [UpdateAlbumReq(u.value)] && db.albums == old(db.albums)
              && albums == old(albums))
        && (u.Some? && fault.None? ==>
              && db.log == old(db.log) + [UpdateAlbumReq(u.value)] + [ListAlbums]
              && db.albums == UpdateWhereId(old(db.albums), u.value)
              && albums == (if listFault.Some? then old(albums) else db.albums))
    {
      var u := EditRequest(a, newTitle, newSlug);
      if u.None? {
        return;
      }
      var err := db.UpdateAlbum(u.value, fault);
      if err.None? {
        LoadAlbums(listFault);
      }
    }

    /** The link shown on a card and used by copyFofo and openQr. */
    function CardLink(a: Album): (r: string)
      reads this
      ensures r == AlbumPublicLink(baseUrl, a.slug)
    {
      baseUrl + "#/a/" + a.slug
    }

    /** copyFofo: the text handed to the clipboard, built from the album's
        current slug. */
    method CopyFofo(a: Album) returns (text: string)
      ensures Contains(text, AlbumPublicLink(baseUrl, a.slug))
      ensures text == ShareText(ShareIntro, AlbumPublicLink(baseUrl, a.slug), ShareOutro)
    {
      var link := CardLink(a);
      text := ShareText(ShareIntro, link, ShareOutro);
    }

    /** The card menu button. */
    method ToggleMenu(a: Album)
      modifies this`openMenuId
      ensures openMenuId == ToggledMenu(old(openMenuId), a.id)
    {
      openMenuId := ToggledMenu(openMenuId, a.id);
    }

    /** A click anywhere else closes every menu. */
    method CloseMenus()
      modifies this`openMenuId
      ensures openMenuId.None?
    {
      openMenuId := None;
    }

    /** openQr; `encode` stands for QRCode.toDataURL with the page's options. */
    method OpenQr(a: Album, encode: string -> string)
      modifies this`qrAlbum, this`qrDataUrl
      ensures QrPanel(qrAlbum, qrDataUrl) == ToggledQr(QrPanel(old(qrAlbum), old(qrDataUrl)), a, baseUrl, encode)
    {
      if qrAlbum.Some? && qrAlbum.value.id == a.id {
        qrAlbum, qrDataUrl := None, "";
        return;
      }
      var link := CardLink(a);
      var dataUrl := encode(link);
      qrAlbum, qrDataUrl := Some(a), dataUrl;
    }
  }
}
