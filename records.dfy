/** The persisted rows, the session value the pages consume, and the photo
    address with its cache-busting token. */
module Records {
  import opened Util

  type Id = string

  /** The signed-in principal: `session.user`. */
  datatype User = User(id: Id, email: string)

  /** A session of the identity provider; `user` may be missing. */
  datatype Session = Session(user: Option<User>)

  /** `session?.user?.id` tested for truthiness: absent when there is no
      session, no user, or an empty id. */
  function OwnerId(session: Option<Session>): (r: Option<Id>)
    ensures r.Some? <==>
      session.Some? && session.value.user.Some? && session.value.user.value.id != ""
    ensures r.Some? ==> r.value == session.value.user.value.id
  {
    match session
    case None => None
    case Some(s) =>
      match s.user
      case None => None
      case Some(u) => if u.id == "" then None else Some(u.id)
  }

  /** A row of the `albums` table. */
  datatype Album = Album(id: Id, ownerId: Id, title: string, slug: string, isPublic: bool, createdAt: string)

  /** The columns the dashboard sends when it creates an album; the store
      assigns `id` and `created_at`. */
  datatype AlbumInsert = AlbumInsert(ownerId: Id, title: string, slug: string, isPublic: bool)

  /** The columns the dashboard sends when it edits an album. */
  datatype AlbumUpdate = AlbumUpdate(id: Id, title: string, slug: string)

  /** A row of the `memories` table. */
  datatype Memory = Memory(
    id: Id, albumId: Id, title: string, place: string, time: string,
    description: string, photoUrl: string, createdAt: string)

  /** The columns the album admin page sends when it creates a memory. */
  datatype MemoryInsert = MemoryInsert(
    albumId: Id, title: string, place: string, time: string,
    description: string, photoUrl: string)

  /** A row of the legacy `memorias` table written by the old admin page. */
  datatype LegacyMemory = LegacyMemory(
    titulo: string, lugar: string, horario: string, descricao: string, fotoUrl: string)

  /** A file picked in a form: its name and its declared MIME type. */
  datatype File = File(name: string, contentType: string)

  /** The fields of a submitted memory form as FormData.get returns them:
      absent fields are null. */
  datatype MemoryForm = MemoryForm(
    title: Option<string>, place: Option<string>, time: Option<string>,
    description: Option<string>, photo: Option<File>)

  /** The error both submit handlers raise when no usable file was picked. */
  const MissingPhoto: string := "Selecione uma foto"

  /** The negation of `!file || !file.name`: a file was picked and it has a
      name. */
  predicate HasPhoto(form: MemoryForm) {
    form.photo.Some? && form.photo.value.name != ""
  }

  /** `(fd.get(name) || "").toString().trim()` */
  function FormText(v: Option<string>): string {
    Trim(v.GetOr(""))
  }

  /** The status line of a page, by kind. The fixed wordings are Blank
      (nothing shown), "Criando...", "Álbum criado ✅", "Salvando..." and
      "Salvo ✅"; Says shows a store message as it came, Failed shows it as
      "Erro: " followed by the message. */
  datatype Status = Blank | Creating | Created | Saving | Saved | Says(text: string) | Failed(reason: string)

  /** The words shown for a status. */
  function StatusText(s: Status): (r: string)
    ensures s.Says? ==> r == s.text
    ensures s.Failed? ==> "Erro: " <= r && r[|"Erro: "|..] == s.reason
    ensures r == "" <==> s.Blank? || s == Says("")
  {
    match s
    case Blank => ""
    case Creating => "Criando..."
    case Created => "\U{C1}lbum criado \U{2705}"
    case Saving => "Salvando..."
    case Saved => "Salvo \U{2705}"
    case Says(t) => t
    case Failed(t) => "Erro: " + t
  }

  /** The image address shown for a memory: `photo_url + "?t=" + created_at`,
      so that a re-created memory is fetched again instead of from cache. */
  function PhotoSrc(m: Memory): (r: string)
    ensures m.photoUrl <= r
    ensures r[|m.photoUrl|..] == "?t=" + m.createdAt
  {
    m.photoUrl + "?t=" + m.createdAt
  }

  /** For the same photo address, distinct creation times give distinct
      image addresses, and the address gives back the creation time. */
  lemma PhotoSrcDistinguishesVersions(m: Memory, n: Memory)
    requires m.photoUrl == n.photoUrl
    ensures PhotoSrc(m) == PhotoSrc(n) <==> m.createdAt == n.createdAt
  {
    if PhotoSrc(m) == PhotoSrc(n) {
      var k := |m.photoUrl| + 3;
      assert PhotoSrc(m)[k..] == m.createdAt;
      assert PhotoSrc(n)[k..] == n.createdAt;
    }
  }
}
