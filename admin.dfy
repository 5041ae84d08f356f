/** The legacy single-gallery admin page (Admin.jsx): its submit handler
    uploads a photo under "memorias/" and inserts a row into the legacy
    `memorias` table. */
module AdminPage {
  import opened Util
  import opened Records
  import opened StoragePath
  import opened Backend

  /** The upload path for a picked file: in the legacy folder, named by the
      token and the file's extension. */
  function LegacyPath(token: string, photo: File): (r: string)
    ensures "memorias/" <= r
    ensures Extension(r) == Extension(photo.name)
  {
    LegacyPathKeepsExtension(token, photo.name);
    LegacyPhotoPath(token, Extension(photo.name))
  }

  /** The row the handler inserts: the four form texts (the fields named
      titulo, lugar, horario and descricao) trimmed, and the photo address. */
  function LegacyRow(form: MemoryForm, fotoUrl: string): LegacyMemory {
    LegacyMemory(FormText(form.title), FormText(form.place), FormText(form.time),
                 FormText(form.description), fotoUrl)
  }

  /** The row keeps the photo address it was given and trimmed texts:
      trimming them again changes nothing. */
  lemma LegacyRowIsTrimmed(form: MemoryForm, fotoUrl: string)
    ensures var r := LegacyRow(form, fotoUrl);
      && r.fotoUrl == fotoUrl
      && Trim(r.titulo) == r.titulo && Trim(r.lugar) == r.lugar
      && Trim(r.horario) == r.horario && Trim(r.descricao) == r.descricao
  {
    TrimIdempotent(form.title.GetOr(""));
    TrimIdempotent(form.place.GetOr(""));
    TrimIdempotent(form.time.GetOr(""));
    TrimIdempotent(form.description.GetOr(""));
  }

  /** Distinct tokens give distinct legacy paths. */
  lemma LegacyPathsDistinct(t1: string, p1: File, t2: string, p2: File)
    requires t1 != t2
    ensures LegacyPath(t1, p1) != LegacyPath(t2, p2)
  {
    if LegacyPath(t1, p1) == LegacyPath(t2, p2) {
      LegacyPathInjective(t1, Extension(p1.name), t2, Extension(p2.name));
    }
  }

  /** The part of the backend the handler writes: the bucket and the
      legacy table. */
  datatype LegacyStore = LegacyStore(blobs: map<string, File>, rows: seq<LegacyMemory>)

  /** Whether an upload to `path` lands: no provider error, and the path is
      free (`upsert: false`). */
  predicate Uploads(blobs: map<string, File>, path: string, uploadFault: Option<string>) {
    uploadFault.None? && path !in blobs
  }

  /** The store after the handler as written: the upload, then the insert
      whatever the upload did. */
  function SubmitAsWritten(st: LegacyStore, storageBase: string, form: MemoryForm, token: string,
                           uploadFault: Option<string>, insertFault: Option<string>): (r: LegacyStore)
    ensures !HasPhoto(form) ==> r == st
    ensures HasPhoto(form) && insertFault.None? ==>
      r.rows == st.rows + [LegacyRow(form, PublicAddress(storageBase, LegacyPath(token, form.photo.value)))]
  {
    if !HasPhoto(form) then st
    else
      var path := LegacyPath(token, form.photo.value);
      var blobs := if Uploads(st.blobs, path, uploadFault) then st.blobs[path := form.photo.value] else st.blobs;
      var row := LegacyRow(form, PublicAddress(storageBase, path));
      LegacyStore(blobs, if insertFault.Some? then st.rows else st.rows + [row])
  }

  /** The store after the handler with the upload error checked: no insert
      after a failed upload. */
  function SubmitChecked(st: LegacyStore, storageBase: string, form: MemoryForm, token: string,
                         uploadFault: Option<string>, insertFault: Option<string>): (r: LegacyStore)
    ensures !HasPhoto(form) ==> r == st
    ensures HasPhoto(form) && !Uploads(st.blobs, LegacyPath(token, form.photo.value), uploadFault) ==> r == st
  {
    if !HasPhoto(form) then st
    else
      var path := LegacyPath(token, form.photo.value);
      if !Uploads(st.blobs, path, uploadFault) then st
      else
        var row := LegacyRow(form, PublicAddress(storageBase, path));
        LegacyStore(st.blobs[path := form.photo.value], if insertFault.Some? then st.rows else st.rows + [row])
  }

  /** Every row's photo address names a path that holds a photo. */
  ghost predicate PhotosPresent(st: LegacyStore, storageBase: string) {
    forall i :: 0 <= i < |st.rows| ==>
      exists p :: p in st.blobs && st.rows[i].fotoUrl == PublicAddress(storageBase, p)
  }

  /** With the upload error checked, every row keeps pointing at a stored
      photo. */
  lemma CheckedKeepsPhotosPresent(st: LegacyStore, storageBase: string, form: MemoryForm, token: string,
                                  uploadFault: Option<string>, insertFault: Option<string>)
    requires PhotosPresent(st, storageBase)
    ensures PhotosPresent(SubmitChecked(st, storageBase, form, token, uploadFault, insertFault), storageBase)
  {
    var r := SubmitChecked(st, storageBase, form, token, uploadFault, insertFault);
    if HasPhoto(form) && Uploads(st.blobs, LegacyPath(token, form.photo.value), uploadFault) {
      var path := LegacyPath(token, form.photo.value);
      forall i | 0 <= i < |r.rows|
        ensures exists p :: p in r.blobs && r.rows[i].fotoUrl == PublicAddress(storageBase, p)
      {
        if i < |st.rows| {
          var url := st.rows[i].fotoUrl;
          var p :| p in st.blobs && url == PublicAddress(storageBase, p);
          assert r.rows[i] == st.rows[i];
          assert p in r.blobs;
        } else {
          assert r.rows[i].fotoUrl == PublicAddress(storageBase, path);
          assert path in r.blobs;
        }
      }
    }
  }

  /** As written, one failed upload followed by a successful insert breaks
      that: starting from an empty store, the new row names a path that holds
      nothing. */
  lemma AsWrittenLosesPhotos()
    ensures var st := LegacyStore(map[], []);
      var form := MemoryForm(Some("t"), None, None, None, Some(File("f.jpg", "image/jpeg")));
      && PhotosPresent(st, "s")
      && !PhotosPresent(SubmitAsWritten(st, "s", form, "u", Some("network"), None), "s")
  {
    var form := MemoryForm(Some("t"), None, None, None, Some(File("f.jpg", "image/jpeg")));
    var r := SubmitAsWritten(LegacyStore(map[], []), "s", form, "u", Some("network"), None);
    assert r.blobs == map[];
    assert |r.rows| == 1;
    var url := r.rows[0].fotoUrl;
    assert !exists p :: p in r.blobs && url == PublicAddress("s", p);
  }

  class Admin {
    var session: Option<Session>
    var msg: Status
    const db: Backend

    constructor (db: Backend)
      ensures this.db == db && session.None? && msg.Blank?
    {
      this.db := db;
      session, msg := None, Blank;
    }

    /** The getSession and onAuthStateChange callbacks. */
    method OnSession(s: Option<Session>)
      modifies this`session
      ensures session == s
    {
      session := s;
    }

    /** The submission form appears only for a signed-in visitor. */
    predicate FormShown()
      reads this
    {
      session.Some?
    }

    /** onSubmit as written: the upload's error is never looked at, so the
        row is inserted, pointing at the path, whether or not the photo got
        there. Only the insert's error reaches the status line. */
    method OnSubmit(form: MemoryForm, token: string, uploadFault: Option<string>,
                    insertFault: Option<string>)
      modifies this`msg, db`blobs, db`legacy, db`log
      ensures !HasPhoto(form) ==>
        && msg == Failed(MissingPhoto)
        && db.log == old(db.log) && db.blobs == old(db.blobs) && db.legacy == old(db.legacy)
      ensures HasPhoto(form) ==>
        var path := LegacyPath(token, form.photo.value);
        var row := LegacyRow(form, db.PublicUrlOf(path));
        && db.log == old(db.log) + [UploadReq(path)] + [InsertLegacyReq(row)]
        && msg == (if insertFault.Some? then Failed(insertFault.value) else Saved)
      ensures LegacyStore(db.blobs, db.legacy) ==
        SubmitAsWritten(LegacyStore(old(db.blobs), old(db.legacy)), db.storageBase, form, token,
                        uploadFault, insertFault)
    {
      msg := Saving;
      if !HasPhoto(form) {
        msg := Failed(MissingPhoto);
        return;
      }
      var file := form.photo.value;
      var path := LegacyPath(token, file);
      var upErr := db.Upload(path, file, uploadFault);
      var row := LegacyRow(form, db.PublicUrlOf(path));
      var dbErr := db.InsertLegacy(row, insertFault);
      if dbErr.Some? {
        msg := Failed(dbErr.value);
      } else {
        msg := Saved;
      }
    }

    /** onSubmit with the upload's error checked, as the album page does: an
        upload error is shown and no row is inserted, so every inserted row
        points at the photo just uploaded. */
    method OnSubmitChecked(form: MemoryForm, token: string, uploadFault: Option<string>,
                           insertFault: Option<string>)
      modifies this`msg, db`blobs, db`legacy, db`log
      ensures !HasPhoto(form) ==>
        && msg == Failed(MissingPhoto)
        && db.log == old(db.log) && db.blobs == old(db.blobs) && db.legacy == old(db.legacy)
      ensures HasPhoto(form) ==>
        var path := LegacyPath(token, form.photo.value);
        var uploaded := uploadFault.None? && path !in old(db.blobs);
        var row := LegacyRow(form, db.PublicUrlOf(path));
        && (!uploaded ==>
              && db.log == old(db.log) + [UploadReq(path)]
              && db.blobs == old(db.blobs) && db.legacy == old(db.legacy)
              && msg == Failed(if uploadFault.Some? then uploadFault.value else PathTaken))
        && (uploaded ==>
              && db.log == old(db.log) + [UploadReq(path)] + [InsertLegacyReq(row)]
              && db.blobs == old(db.blobs)[path := form.photo.value]
              && db.legacy == (if insertFault.Some? then old(db.legacy) else old(db.legacy) + [row])
              && msg == (if insertFault.Some? then Failed(insertFault.value) else Saved))
      ensures LegacyStore(db.blobs, db.legacy) ==
        SubmitChecked(LegacyStore(old(db.blobs), old(db.legacy)), db.storageBase, form, token,
                      uploadFault, insertFault)
    {
      msg := Saving;
      if !HasPhoto(form) {
        msg := Failed(MissingPhoto);
        return;
      }
      var file := form.photo.value;
      var path := LegacyPath(token, file);
      var upErr := db.Upload(path, file, uploadFault);
      if upErr.Some? {
        msg := Failed(upErr.value);
        return;
      }
      var row := LegacyRow(form, db.PublicUrlOf(path));
      var dbErr := db.InsertLegacy(row, insertFault);
      if dbErr.Some? {
        msg := Failed(dbErr.value);
      } else {
        msg := Saved;
      }
    }
  }
}
