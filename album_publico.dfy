/** The public reader of one album (AlbumPublico.jsx): the lookup by slug,
    then the album's memories; the photo modal; the Polaroid tilt derived from
    the memory id; and the empty-state panel. */
module AlbumPublicoPage {
  import opened Util
  import opened Records
  import opened Backend

  /** The one message a failed album lookup shows, whatever the cause. */
  const NotFound: string := "\U{C1}lbum n\U{E3}o encontrado ou privado."

  /** What the page shows: the album, its memories and the error line. */
  datatype View = View(album: Option<Album>, items: seq<Memory>, err: string)

  /** The answer of the album lookup `.eq("slug", slug).single()`. */
  function AlbumLookup(albums: seq<Album>, slug: string, fault: Option<string>): Reply<Album> {
    if fault.Some? then Err(fault.value) else Single(AlbumsWhere(albums, BySlug(slug)))
  }

  /** The view after load(): the error is cleared; a failed lookup shows
      NotFound and keeps album and list; otherwise the album is set, and the
      list becomes that album's memories unless the query fails, in which case
      its message is shown and the old list stays. */
  function AfterLoad(v: View, albums: seq<Album>, memories: seq<Memory>, slug: string,
                     albumFault: Option<string>, memFault: Option<string>): View
  {
    match AlbumLookup(albums, slug, albumFault)
    case Err(_) => View(v.album, v.items, NotFound)
    case Ok(a) =>
      if memFault.Some? then View(Some(a), v.items, memFault.value)
      else View(Some(a), MemoriesOf(memories, a.id), "")
  }

  /** The requests load() issues: the memories of the album found, and
      nothing more after a failed lookup. */
  function LoadRequests(albums: seq<Album>, slug: string, albumFault: Option<string>): (r: seq<Request>)
    ensures 1 <= |r| <= 2 && r[0] == GetAlbumBySlug(slug)
    ensures |r| == 2 <==> AlbumLookup(albums, slug, albumFault).Ok?
    ensures |r| == 2 ==> r[1] == ListMemories(AlbumLookup(albums, slug, albumFault).data.id)
  {
    match AlbumLookup(albums, slug, albumFault)
    case Err(_) => [GetAlbumBySlug(slug)]
    case Ok(a) => [GetAlbumBySlug(slug), ListMemories(a.id)]
  }

  /** `!items.length && !err`. */
  predicate ShowsEmptyState(v: View) {
    |v.items| == 0 && v.err == ""
  }

  /** A failed lookup looks the same whatever caused it (a provider error,
      no album with that slug, a private album hidden by the store): the same
      message, the same album and list, one request, and no empty-state panel. */
  lemma LookupFailureIsUniform(v: View, albums1: seq<Album>, albums2: seq<Album>, memories: seq<Memory>,
                               slug: string, f1: Option<string>, f2: Option<string>, m1: Option<string>,
                               m2: Option<string>)
    requires AlbumLookup(albums1, slug, f1).Err? && AlbumLookup(albums2, slug, f2).Err?
    ensures AfterLoad(v, albums1, memories, slug, f1, m1) == AfterLoad(v, albums2, memories, slug, f2, m2)
    ensures AfterLoad(v, albums1, memories, slug, f1, m1) == v.(err := NotFound)
    ensures LoadRequests(albums1, slug, f1) == LoadRequests(albums2, slug, f2) == [GetAlbumBySlug(slug)]
    ensures !ShowsEmptyState(AfterLoad(v, albums1, memories, slug, f1, m1))
  {
    assert NotFound[0] == '\U{C1}';
  }

  /** A successful load shows the album with that slug and exactly its
      memories; the empty-state panel appears exactly when it has none. */
  lemma LoadShowsThatAlbum(v: View, albums: seq<Album>, memories: seq<Memory>, slug: string)
    requires |AlbumsWhere(albums, BySlug(slug))| == 1
    ensures var w := AfterLoad(v, albums, memories, slug, None, None);
      && w.album.Some? && w.album.value.slug == slug && w.album.value in albums
      && (forall m :: m in w.items <==> m in memories && m.albumId == w.album.value.id)
      && (ShowsEmptyState(w) <==> forall m :: m in memories ==> m.albumId != w.album.value.id)
  {
    var a := AlbumsWhere(albums, BySlug(slug))[0];
    assert a in AlbumsWhere(albums, BySlug(slug));
    var w := AfterLoad(v, albums, memories, slug, None, None);
    if !ShowsEmptyState(w) {
      assert w.items[0] in w.items;
    }
  }

  /** `.single()` finds the album exactly when one row holds the slug: a
      unique slug is found and its memories are shown ... */
  lemma UniqueSlugFound(v: View, albums: seq<Album>, memories: seq<Memory>, slug: string, i: nat)
    requires i < |albums| && albums[i].slug == slug
    requires forall j :: 0 <= j < |albums| && j != i ==> albums[j].slug != slug
    ensures AlbumLookup(albums, slug, None) == Ok(albums[i])
    ensures AfterLoad(v, albums, memories, slug, None, None)
      == View(Some(albums[i]), MemoriesOf(memories, albums[i].id), "")
  {
    OnlyMatch(albums, BySlug(slug), i);
  }

  /** ... while a slug held by no album, or shared by two albums (the pages
      never check uniqueness), shows NotFound. */
  lemma MissingOrSharedSlugNotFound(v: View, albums: seq<Album>, memories: seq<Memory>, slug: string,
                                    memFault: Option<string>)
    requires (forall j :: 0 <= j < |albums| ==> albums[j].slug != slug)
      || (exists i, j :: 0 <= i < j < |albums| && albums[i].slug == slug && albums[j].slug == slug)
    ensures AlbumLookup(albums, slug, None).Err?
    ensures AfterLoad(v, albums, memories, slug, None, memFault) == v.(err := NotFound)
  {
    if forall j :: 0 <= j < |albums| ==> albums[j].slug != slug {
      NoMatch(albums, BySlug(slug));
    } else {
      var i, j :| 0 <= i < j < |albums| && albums[i].slug == slug && albums[j].slug == slug;
      TwoMatches(albums, BySlug(slug), i, j);
    }
  }

  /** A failed memory query keeps the list and shows the query's message. */
  lemma MemoryFailureKeepsList(v: View, albums: seq<Album>, memories: seq<Memory>, slug: string,
                               albumFault: Option<string>, e: string)
    requires AlbumLookup(albums, slug, albumFault).Ok?
    ensures var w := AfterLoad(v, albums, memories, slug, albumFault, Some(e));
      w.items == v.items && w.err == e && w.album == Some(AlbumLookup(albums, slug, albumFault).data)
  {
  }

  /** The photo modal: whether it is open, and the memory selected. */
  datatype Modal = Modal(open: bool, selected: Option<Memory>)

  /** `open && selected`. */
  predicate ModalShown(d: Modal) {
    d.open && d.selected.Some?
  }

  /** openModal(m): the modal shows m. */
  function OpenedModal(m: Memory): (r: Modal)
    ensures ModalShown(r) && r.selected == Some(m)
  {
    Modal(true, Some(m))
  }

  /** closeModal(): nothing is shown and nothing stays selected. */
  function ClosedModal(): (r: Modal)
    ensures !ModalShown(r) && r.selected.None? && !r.open
  {
    Modal(false, None)
  }

  /** `c.charCodeAt(0)` for a code point `c` of the spread string: the code
      point itself in the Basic Multilingual Plane, the high surrogate of its
      UTF-16 pair above it. */
  function CharCode(c: char): (r: nat)
    ensures r <= 0xFFFF
    ensures c as int <= 0xFFFF ==> r == c as int
    ensures c as int > 0xFFFF ==> 0xD800 <= r <= 0xDBFF
  {
    if c as int <= 0xFFFF then c as int else 0xD800 + (c as int - 0x10000) / 0x400
  }

  /** `[...s].reduce((a, c) => a + c.charCodeAt(0), 0)`. */
  function SumCodes(s: string): (r: nat)
    ensures r <= 0xFFFF * |s|
  {
    if s == [] then 0 else SumCodes(s[..|s| - 1]) + CharCode(s[|s| - 1])
  }

  /** The reduction splits over concatenation, so the hash adds up character
      by character from either end. */
  lemma {:induction false} SumCodesAppend(s: string, t: string)
    ensures SumCodes(s + t) == SumCodes(s) + SumCodes(t)
  {
    if t == [] {
      assert s + t == s;
    } else {
      var t' := t[..|t| - 1];
      assert (s + t)[..|s + t| - 1] == s + t';
      assert (s + t)[|s + t| - 1] == t[|t| - 1];
      SumCodesAppend(s, t');
    }
  }

  /** The Polaroid hash of a memory id; a missing id counts as "". */
  function Hash(id: string): nat {
    SumCodes(id)
  }

  /** `(hash % 11) - 5`, in degrees. */
  function Rot(id: string): (r: int)
    ensures -5 <= r <= 5
    ensures r + 5 == Hash(id) % 11
  {
    Hash(id) % 11 - 5
  }

  datatype Tilt = Left | Right

  /** `(hash % 2) ? "left" : "right"`. */
  function TiltOf(id: string): (r: Tilt)
    ensures r == Left <==> Hash(id) % 2 == 1
  {
    if Hash(id) % 2 != 0 then Left else Right
  }

  /** An empty id gives rotation -5 and tilts right; "a" (code 97) gives 4
      and tilts left. */
  lemma PolaroidExamples()
    ensures Rot("") == -5 && TiltOf("") == Right
    ensures Rot("a") == 4 && TiltOf("a") == Left
  {
    assert "a"[..0] == "";
  }

  class AlbumPublico {
    /** The route parameter. */
    const slug: string
    var album: Option<Album>
    var items: seq<Memory>
    var err: string
    var open: bool
    var selected: Option<Memory>
    const db: Backend

    constructor (slug: string, db: Backend)
      ensures this.slug == slug && this.db == db
      ensures album.None? && items == [] && err == "" && !open && selected.None?
    {
      this.slug, this.db := slug, db;
      album, items, err, open, selected := None, [], "", false, None;
    }

    function ViewState(): View
      reads this
    {
      View(album, items, err)
    }

    function ModalState(): Modal
      reads this
    {
      Modal(open, selected)
    }

    /** load(). */
    method Load(albumFault: Option<string>, memFault: Option<string>)
      modifies this`album, this`items, this`err, db`log
      ensures ViewState() == AfterLoad(old(ViewState()), db.albums, db.memories, slug, albumFault, memFault)
      ensures db.log == old(db.log) + LoadRequests(db.albums, slug, albumFault)
    {
      err := "";
      var ar := db.SelectAlbumBySlug(slug, albumFault);
      if ar.Err? {
        err := NotFound;
        return;
      }
      var a := ar.data;
      album := Some(a);
      var mr := db.SelectMemories(a.id, memFault);
      if mr.Err? {
        err := mr.message;
      } else {
        items := mr.data;
      }
    }

    /** A click on a Polaroid. */
    method OpenModal(m: Memory)
      modifies this`open, this`selected
      ensures ModalState() == OpenedModal(m)
    {
      selected := Some(m);
      open := true;
    }

    /** The close button, a click on the overlay, or the Escape key. */
    method CloseModal()
      modifies this`open, this`selected
      ensures ModalState() == ClosedModal()
    {
      open := false;
      selected := None;
    }
  }
}
