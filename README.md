# Recordações: a Dafny model of the album pages

Recordações is a small web app for shared photo albums. A signed-in owner
creates **albums**, each with a title and a URL-safe **slug**. The owner adds
**memories** to an album: a photo plus a title, place, time and note. The owner
then shares a link, a copy text or a QR code. Anyone holding the link sees the
album's public page, where each photo is drawn as a slightly tilted Polaroid.
The data lives in a managed backend: a record store with the `albums`,
`memories` and legacy `memorias` tables, and a `fotos` blob bucket.

This project models the logic of the pages that decide what is written, where
and when, and what is shown:

- `Slug` is the slug engine `makeSlug`.
- `PublicUrl` builds the share link.
- `DashboardPage` covers creating and editing albums, the slug auto-fill, the
  copy text, and the QR and menu toggles.
- `AlbumAdminPage` is the upload-then-insert sequence for a memory, the
  two-stage load, and the copy link.
- `AdminPage` is the legacy submit handler.
- `AlbumPublicoPage` is the public reader: lookup by slug, photo modal,
  Polaroid tilt and the empty state.
- `RequireAuthGate` is the session gate.

Shared modules:

- `Util`: `Option`, JavaScript's `String.prototype.trim`, and substring
  containment.
- `Records`: the rows, the session and the status line.
- `StoragePath`: `split(".").pop()` and the upload paths.
- `Backend`: a class holding the tables as sequences and the bucket as a map.
  It keeps a ghost log of the requests issued. Every remote call takes a
  `fault` parameter: the error the provider reports, or `None` when the call
  succeeds.

Conventions:

- Each React component is a class whose fields are its state cells. Each
  event handler is one sequential method.
- A method's new state is tied to a pure function, such as `AfterLoad`,
  `Step`, `ToggledQr` or `SubmitAsWritten`, and the properties are proved
  about that function.
- The page's status line is the datatype `Records.Status`. `StatusText` gives
  its exact words.

Behaviour of the pages that the model keeps as the code has it:

- Neither creation nor editing rejects an empty slug. `MakeSlugEmptyIff`
  characterises when the slug is empty.
- The pages never check that a slug is unique. A slug held by two albums makes
  the public lookup fail (`MissingOrSharedSlugNotFound`).
- The public reader never looks at `is_public`; hiding a private album is left
  to the store.
- The legacy handler inserts its row even when the upload failed. See
  Findings.
- A memory's title is not checked by the code. Only the browser's `required`
  attribute guards it.

## Model

| member | source | states |
|---|---|---|
| Slug.MakeSlug | src/pages/Dashboard.jsx:56-63 | the result uses only `[a-z0-9-]`, neither starts nor ends with `-`, never contains `--`, and keeps exactly the letters and digits of the lower-cased, accent-stripped input, in order |
| Slug.MakeSlugIdempotent | src/pages/Dashboard.jsx:56-63 | normalising a slug again changes nothing |
| Slug.SlugFixed | src/pages/Dashboard.jsx:56-63 | every string of slug shape is its own slug |
| Slug.MakeSlugKeepsAlnums | src/pages/Dashboard.jsx:56-63 | for ASCII input, removing the hyphens from the slug gives the letters and digits of the lower-cased input |
| Slug.MakeSlugEmptyIff | src/pages/Dashboard.jsx:56-63 | the slug is empty exactly when the folded input has no letter or digit, so punctuation-only input gives "" and is not rejected |
| Slug.CollapseShape | src/pages/Dashboard.jsx:61 | replacing each run of non-`[a-z0-9]` characters by one `-` gives the slug alphabet with no `--`; it is empty only for empty input, and it starts with `-` exactly when the input does not start with a letter or digit |
| Slug.CollapseAlnums | src/pages/Dashboard.jsx:61 | collapsing keeps the letters and digits in order |
| Slug.TrimHyphensKeepsShape | src/pages/Dashboard.jsx:62 | removing a leading and a trailing `-` from a collapsed string gives the full slug shape and keeps its letters and digits |
| Slug.AsciiUnchangedByNfd | src/pages/Dashboard.jsx:58-60 | on ASCII input, decomposing and removing the marks change nothing after lower-casing |
| Slug.ExampleAccented | src/pages/Dashboard.jsx:58-60 | "Você" folds to "voce" |
| Slug.PortugueseTitleExample | src/pages/Dashboard.jsx:56-63 | the sample title "Eu & Você 2025!" becomes "eu-voce-2025" |
| Slug.PlaceholderExample | src/pages/Dashboard.jsx:176 | the title placeholder's example "Eu & Você 💛" becomes "eu-voce": the heart is a separator and the trailing one is trimmed |
| Slug.PlaceholderFolded | src/pages/Dashboard.jsx:58-60 | "Eu & Você 💛" folds to "eu & voce 💛" |
| Slug.Lower | src/pages/Dashboard.jsx:58 | lower-casing keeps the length and maps each character on its own |
| Slug.Decompose | src/pages/Dashboard.jsx:59 | a character outside the decomposition table stays as itself; one inside becomes its base letter followed by one combining mark |
| Slug.Nfd | src/pages/Dashboard.jsx:59 | `normalize("NFD")`: each character replaced by its decomposition from the table |
| Slug.StripMarks | src/pages/Dashboard.jsx:60 | `replace(/[\u0300-\u036f]/g, "")`: every combining mark of that block deleted |
| Slug.Collapse | src/pages/Dashboard.jsx:61 | `replace(/[^a-z0-9]+/g, "-")`: each maximal run outside `[a-z0-9]` becomes one `-`; its properties are CollapseShape and CollapseAlnums |
| Slug.TrimHyphens | src/pages/Dashboard.jsx:62 | the replace anchored at both ends removes at most one `-` from each end; its property is TrimHyphensKeepsShape |
| Slug.Folded | src/pages/Dashboard.jsx:58-60 | lower-casing, decomposition and mark removal, in that order |
| Slug.CollapseAlnumsFirst | src/pages/Dashboard.jsx:61 | a leading run of `[a-z0-9]` passes through the collapse unchanged |
| Slug.CollapseRunFirst | src/pages/Dashboard.jsx:61 | a whole leading run of other characters, followed by a letter or digit or by nothing, becomes exactly one `-` |
| Slug.NfdAppend | src/pages/Dashboard.jsx:59 | decomposition distributes over concatenation |
| Slug.StripMarksAppend | src/pages/Dashboard.jsx:60 | removing combining marks distributes over concatenation |
| PublicUrl.GetBaseUrl | src/lib/publicUrl.js:1-4 | the base is the origin followed by the pathname |
| PublicUrl.AlbumPublicLink | src/lib/publicUrl.js:6-9 | the link starts with the base and ends with "#/a/" and the slug |
| PublicUrl.LinkRoundTrip | src/lib/publicUrl.js:6-9 | reading the slug back from the fragment of a link gives the slug it was made from |
| PublicUrl.LinkOfReadSlug | src/lib/publicUrl.js:6-9 | every link a slug is read from is that slug's link |
| PublicUrl.LinkInjective | src/lib/publicUrl.js:7 | for one base, distinct slugs give distinct links |
| PublicUrl.ShareText | src/pages/Dashboard.jsx:124-127 | the copy text has the opening line, then the link verbatim, then the closing line; the same shape with other wording is at src/pages/AlbumAdmin.jsx:61-64 |
| PublicUrl.LinksShareBase | src/lib/publicUrl.js:7 | links under one base agree up to the end of "#/a/" |
| Util.Trim | src/pages/Dashboard.jsx:81 | trim never lengthens the text |
| Util.TrimRemovesOnlySpace | src/pages/Dashboard.jsx:81 | what trim returns is a slice of the input with only ECMAScript white space before and after it |
| Util.TrimLeavesNoSpaceAtEnds | src/pages/Dashboard.jsx:81 | trim leaves no white space at either end |
| Util.TrimIdempotent | src/pages/Dashboard.jsx:81 | trimming twice is trimming once |
| Util.StripStartRemovesRun | src/pages/Dashboard.jsx:81 | stripping from the front removes exactly the leading run of the given characters |
| Util.StripEndRemovesRun | src/pages/Dashboard.jsx:81 | stripping from the back removes exactly the trailing run of the given characters |
| Util.ContainsMiddle | src/pages/Dashboard.jsx:124-127 | a text built as prefix, link, suffix contains the link |
| Records.OwnerId | src/pages/Dashboard.jsx:74-75 | `session?.user?.id` is present exactly when there is a session with a user whose id is not empty |
| Records.StatusText | src/pages/AlbumAdmin.jsx:115 | a failure reads "Erro: " followed by the message, a store message is shown as it came, and the line is empty only when cleared |
| Records.HasPhoto | src/pages/AlbumAdmin.jsx:85 | a file was picked and it has a name; both submit handlers fail with "Selecione uma foto" otherwise (also src/pages/Admin.jsx:39) |
| Records.PhotoSrc | src/pages/AlbumAdmin.jsx:163 | the image address is the photo address followed by "?t=" and the creation time; the public page repeats the same expression at src/pages/AlbumPublico.jsx:120 and :151 |
| Records.PhotoSrcDistinguishesVersions | src/pages/AlbumAdmin.jsx:163 | for one photo address, two image addresses are equal exactly when the creation times are equal |
| StoragePath.Extension | src/pages/AlbumAdmin.jsx:87 | `split(".").pop()` contains no `.` and is no longer than the name |
| StoragePath.ExtensionIsLastPart | src/pages/AlbumAdmin.jsx:87 | the extension ends the name, and when the name is longer a `.` stands right before it |
| StoragePath.ExtensionAfterDot | src/pages/AlbumAdmin.jsx:87-88 | a dot-free text after the last `.` is what `split(".").pop()` returns |
| StoragePath.AlbumPathKeepsExtension | src/pages/AlbumAdmin.jsx:87-89 | the upload path has the same extension as the file name |
| StoragePath.AlbumPathInjective | src/pages/AlbumAdmin.jsx:88-89 | within one album, the path determines the token and the extension |
| StoragePath.LegacyPathKeepsExtension | src/pages/Admin.jsx:41-43 | the legacy path has the same extension as the file name |
| StoragePath.LegacyPathInjective | src/pages/Admin.jsx:42-43 | the legacy path determines the token and the extension |
| Backend.Single | src/pages/AlbumAdmin.jsx:41 | `.single()` answers the row exactly when one row matches, and an error otherwise |
| Backend.AlbumsWhere | src/pages/AlbumAdmin.jsx:40 | `.eq("id", …)` and `.eq("slug", …)` keep exactly the albums whose column holds the value |
| Backend.AlbumsWhereCounts | src/pages/AlbumPublico.jsx:22 | each matching album is kept as often as the table holds it, and no other album is kept |
| Backend.TwoMatches | src/pages/AlbumPublico.jsx:22-23 | two matching rows give `.single()` at least two rows |
| Backend.OnlyMatch | src/pages/AlbumPublico.jsx:22-23 | a row that is the only match is the whole answer |
| Backend.NoMatch | src/pages/AlbumPublico.jsx:22-23 | without a matching row the answer is empty |
| Backend.MemoriesOf | src/pages/AlbumAdmin.jsx:53 | the filter keeps exactly the memories of that album |
| Backend.MemoriesOfCounts | src/pages/AlbumAdmin.jsx:50-54 | each memory of the album is kept as often as the table holds it, and no other memory is kept |
| Backend.UpdateWhereId | src/pages/Dashboard.jsx:102-105 | the update changes the title and slug of the rows with that id and leaves every other row and column alone |
| Backend.PublicAddress | src/pages/AlbumAdmin.jsx:97-98 | the public address is the storage endpoint, the public bucket path, then the object path |
| Backend.PublicAddressInjective | src/pages/AlbumAdmin.jsx:97-98 | distinct paths have distinct public addresses |
| Backend.Backend.SelectAlbums | src/pages/Dashboard.jsx:48-53 | one ListAlbums request; the provider's error, or every album |
| Backend.Backend.SelectAlbumById | src/pages/AlbumAdmin.jsx:37-41 | one request; the provider's error, or `.single()` over the albums with that id |
| Backend.Backend.SelectAlbumBySlug | src/pages/AlbumPublico.jsx:19-23 | one request; the provider's error, or `.single()` over the albums with that slug |
| Backend.Backend.SelectMemories | src/pages/AlbumAdmin.jsx:50-54 | one request; the provider's error, or the memories of the album |
| Backend.Backend.InsertAlbum | src/pages/Dashboard.jsx:79-84 | one request; on success exactly one album is appended, with the sent columns and the store's id and time; on error the table is unchanged |
| Backend.Backend.UpdateAlbum | src/pages/Dashboard.jsx:102-105 | one request; on success the table becomes UpdateWhereId of it; on error it is unchanged |
| Backend.Backend.InsertMemory | src/pages/AlbumAdmin.jsx:100-107 | one request; on success exactly one memory is appended with the sent columns; on error the table is unchanged |
| Backend.Backend.InsertLegacy | src/pages/Admin.jsx:50-56 | one request; on success the row is appended to the legacy table; on error it is unchanged |
| Backend.Backend.Upload | src/pages/AlbumAdmin.jsx:91-93 | an upload without `upsert` fails on a provider error or on a taken path and then stores nothing; otherwise it stores the file at the path |
| DashboardPage.AutoFilledSlug | src/pages/Dashboard.jsx:65-68 | an existing slug is never overwritten; an empty slug is filled from a non-empty title |
| DashboardPage.Dashboard.TypeTitle | src/pages/Dashboard.jsx:65-68 | typing a title updates it, and the auto-fill runs only when the title changed |
| DashboardPage.Dashboard.TypeSlug | src/pages/Dashboard.jsx:185 | typing in the slug field stores the text as typed, not normalised |
| DashboardPage.NewAlbumRow | src/pages/Dashboard.jsx:74-84 | no row without an owner id; otherwise the owner, the trimmed title, the slug of the slug field or, when that is empty, of the title, and public |
| DashboardPage.NewAlbumSlugIsNormal | src/pages/Dashboard.jsx:77 | a created album's slug has slug shape and is stable under normalising again |
| DashboardPage.Dashboard.CreateAlbum | src/pages/Dashboard.jsx:70-93 | no request and the status "Criando..." without an owner; an insert error is shown and the form is kept; a success adds the album, clears the form, closes the panel and reloads the list |
| DashboardPage.Dashboard.SubmitAlbum | src/pages/Dashboard.jsx:79-92 | the insert; on error the message and an unchanged form; on success "Álbum criado ✅", the form reset and the reload |
| DashboardPage.Dashboard.LoadAlbums | src/pages/Dashboard.jsx:47-54 | the list is replaced on success and kept on error |
| DashboardPage.Dashboard.OnSession | src/pages/Dashboard.jsx:26-35 | each session callback sets the session and reloads the list |
| DashboardPage.EditRequest | src/pages/Dashboard.jsx:95-105 | no update when either prompt is cancelled or empty; otherwise the album's id, the trimmed title and the normalised slug |
| DashboardPage.EditTouchesOnlyThatAlbum | src/pages/Dashboard.jsx:102-105 | an edit leaves every other album unchanged, and on that album keeps owner, visibility and creation time while giving it a slug of slug shape |
| DashboardPage.Dashboard.EditAlbum | src/pages/Dashboard.jsx:95-109 | no request when EditRequest is none; an update error changes nothing; a success updates the row with that id and reloads |
| DashboardPage.Dashboard.CardLink | src/pages/Dashboard.jsx:123 | the link written out on the card, in copyFofo and in openQr is albumPublicLink of the base and the slug |
| DashboardPage.Dashboard.CopyFofo | src/pages/Dashboard.jsx:122-131 | the clipboard text contains the album's share link |
| DashboardPage.ToggledMenu | src/pages/Dashboard.jsx:234 | after a toggle, the card's menu is open exactly when it was not, and no other menu is open |
| DashboardPage.ToggleMenuTwice | src/pages/Dashboard.jsx:234 | when no menu or this card's own menu is open, toggling the card twice restores the state; when another card's menu is open (the wrapper at line 230 stops the click from closing it), two toggles leave every menu closed |
| DashboardPage.Dashboard.ToggleMenu | src/pages/Dashboard.jsx:233-234 | the open menu becomes ToggledMenu of the old one for the card |
| DashboardPage.Dashboard.CloseMenus | src/pages/Dashboard.jsx:37-38 | a click elsewhere closes every menu |
| DashboardPage.Dashboard.ToggleNew | src/pages/Dashboard.jsx:166 | the new-album panel flips |
| DashboardPage.ToggledQr | src/pages/Dashboard.jsx:133-146 | a second click on the album shown clears the album and the image; a click on another album shows it with the code of its link; the code is shown for the album exactly when it was not |
| DashboardPage.Dashboard.OpenQr | src/pages/Dashboard.jsx:133-146 | the QR panel becomes ToggledQr of the old panel |
| AlbumAdminPage.AfterLoad | src/pages/AlbumAdmin.jsx:34-58 | the view after load(): the lookup's message with album and list kept, or the album with its memories and a cleared status, or the album with the old list and the memories query's message |
| AlbumAdminPage.UniqueIdFound | src/pages/AlbumAdmin.jsx:37-57 | when exactly one row holds the route's id, that row is loaded with exactly its memories and a cleared status |
| AlbumAdminPage.MissingOrSharedIdNotFound | src/pages/AlbumAdmin.jsx:37-46 | when no row or two rows hold the id, `.single()` fails and the view keeps album and list with that error |
| AlbumAdminPage.LoadRequests | src/pages/AlbumAdmin.jsx:37-54 | load always asks for the album first, and asks for the memories exactly when the album was found |
| AlbumAdminPage.LoadShowsThatAlbum | src/pages/AlbumAdmin.jsx:48-57 | a successful load shows the album with the route's id and exactly that album's memories, with the status cleared |
| AlbumAdminPage.LoadFailureKeepsView | src/pages/AlbumAdmin.jsx:43-46 | a failed album lookup keeps album and list and shows the lookup's message |
| AlbumAdminPage.LoadIdempotent | src/pages/AlbumAdmin.jsx:34-58 | loading again against the same store gives the same view |
| AlbumAdminPage.AlbumAdmin.Load | src/pages/AlbumAdmin.jsx:34-58 | the view becomes AfterLoad of the old view and the store, and exactly LoadRequests were issued |
| AlbumAdminPage.PhotoPath | src/pages/AlbumAdmin.jsx:87-89 | the upload path lies in the album's folder and keeps the file's extension |
| AlbumAdminPage.PhotoPathsDistinct | src/pages/AlbumAdmin.jsx:88-89 | distinct tokens give distinct upload paths within an album |
| AlbumAdminPage.NewMemoryRow | src/pages/AlbumAdmin.jsx:100-107 | the inserted row: the album id, the four trimmed text fields and the photo address |
| AlbumAdminPage.NewMemoryRowIsTrimmed | src/pages/AlbumAdmin.jsx:79-107 | the row's four texts are trimmed: no white space at the ends, and trimming again changes nothing |
| AlbumAdminPage.AlbumAdmin.SubmitMemory | src/pages/AlbumAdmin.jsx:87-109 | a failed upload issues no insert and changes no table; after a successful upload, the row carries the album id, the trimmed texts and the public address of that same path |
| AlbumAdminPage.AlbumAdmin.AddMemory | src/pages/AlbumAdmin.jsx:70-119 | nothing before the album is loaded; a missing or nameless photo fails with "Erro: Selecione uma foto" and no request; every error is shown after "Erro: "; a success appends exactly the memory with the store's id and time, the album id, the trimmed texts and the uploaded path's address, then reloads; the request log is the upload, the insert when the upload succeeded, and the load requests after a stored row; saving is off after every outcome |
| AlbumAdminPage.AlbumAdmin.PublicLink | src/pages/AlbumAdmin.jsx:18 | empty until the album is loaded, then albumPublicLink of its slug |
| AlbumAdminPage.AlbumAdmin.CopyLink | src/pages/AlbumAdmin.jsx:60-68 | the clipboard text contains the public link |
| AlbumAdminPage.AlbumAdmin.RefreshQr | src/pages/AlbumAdmin.jsx:26-32 | once the album is loaded, the image is the code of its link; before that it is untouched |
| AdminPage.LegacyPath | src/pages/Admin.jsx:41-43 | the legacy path lies under "memorias/" and keeps the file's extension |
| AdminPage.LegacyPathsDistinct | src/pages/Admin.jsx:42-43 | distinct tokens give distinct legacy paths |
| AdminPage.LegacyRow | src/pages/Admin.jsx:50-56 | the legacy row: the four trimmed text fields and the photo address |
| AdminPage.LegacyRowIsTrimmed | src/pages/Admin.jsx:32-56 | the legacy row keeps the photo address and has trimmed texts |
| AdminPage.SubmitAsWritten | src/pages/Admin.jsx:38-57 | without a usable photo nothing is stored; with one, a successful insert appends the row whatever the upload did |
| AdminPage.Admin.OnSession | src/pages/Admin.jsx:10-11 | both session callbacks store the session they carry |
| AdminPage.Admin.FormShown | src/pages/Admin.jsx:70 | the form is shown exactly when there is a session |
| AdminPage.Admin.OnSubmit | src/pages/Admin.jsx:27-64 | "Erro: Selecione uma foto" without a photo; otherwise both the upload and the insert are issued, the store becomes SubmitAsWritten, and the status is "Salvo ✅" or "Erro: " with the insert's message |
| AdminPage.AsWrittenLosesPhotos | src/pages/Admin.jsx:45-57 | one failed upload followed by a successful insert leaves a row pointing at a path that holds no photo |
| AdminPage.SubmitChecked | src/pages/AlbumAdmin.jsx:95 | with the upload error checked, a failed upload leaves the store unchanged |
| AdminPage.CheckedKeepsPhotosPresent | src/pages/AlbumAdmin.jsx:91-109 | with the upload error checked, every row keeps pointing at a stored photo |
| AdminPage.Admin.OnSubmitChecked | src/pages/Admin.jsx:27-64 | the handler with the check: an upload error is shown and no row is inserted; the store becomes SubmitChecked |
| AlbumPublicoPage.AfterLoad | src/pages/AlbumPublico.jsx:16-39 | the view after load(): NotFound with album and list kept, or the album with its memories and no error, or the album with the old list and the memories query's message |
| AlbumPublicoPage.ShowsEmptyState | src/pages/AlbumPublico.jsx:95 | the empty-state panel shows exactly when the list is empty and there is no error |
| AlbumPublicoPage.UniqueSlugFound | src/pages/AlbumPublico.jsx:19-38 | when exactly one album holds the slug, it is shown with exactly its memories and no error |
| AlbumPublicoPage.MissingOrSharedSlugNotFound | src/pages/AlbumPublico.jsx:19-28 | when no album or two albums hold the slug, the lookup fails and the page shows NotFound |
| AlbumPublicoPage.LoadRequests | src/pages/AlbumPublico.jsx:19-35 | the album is looked up by slug; the memories are requested, by the found album's id, exactly when that lookup succeeded |
| AlbumPublicoPage.LookupFailureIsUniform | src/pages/AlbumPublico.jsx:25-28 | every failed lookup, whatever the cause, gives the same view with the error "Álbum não encontrado ou privado.", one request, and no empty-state panel |
| AlbumPublicoPage.LoadShowsThatAlbum | src/pages/AlbumPublico.jsx:29-38 | a successful load shows the album with that slug and exactly its memories; the empty state appears exactly when it has none |
| AlbumPublicoPage.MemoryFailureKeepsList | src/pages/AlbumPublico.jsx:37-38 | a failed memory query keeps the list and shows the query's message |
| AlbumPublicoPage.AlbumPublico.Load | src/pages/AlbumPublico.jsx:16-39 | the view becomes AfterLoad of the old view and the store, and exactly LoadRequests were issued |
| AlbumPublicoPage.OpenedModal | src/pages/AlbumPublico.jsx:52-56 | after openModal(m) the modal is shown with m selected |
| AlbumPublicoPage.ClosedModal | src/pages/AlbumPublico.jsx:58-62 | after closeModal the modal is not shown and nothing is selected |
| AlbumPublicoPage.AlbumPublico.OpenModal | src/pages/AlbumPublico.jsx:52-56 | the modal state becomes OpenedModal(m) |
| AlbumPublicoPage.AlbumPublico.CloseModal | src/pages/AlbumPublico.jsx:44-62 | the close button, the overlay and Escape leave the modal as ClosedModal |
| AlbumPublicoPage.CharCode | src/pages/AlbumPublico.jsx:140 | `charCodeAt(0)` is the code point inside the Basic Multilingual Plane and the high surrogate above it, never above 0xFFFF |
| AlbumPublicoPage.SumCodes | src/pages/AlbumPublico.jsx:139-142 | the hash is at most 0xFFFF per character |
| AlbumPublicoPage.SumCodesAppend | src/pages/AlbumPublico.jsx:139-142 | the reduction splits over concatenation |
| AlbumPublicoPage.Rot | src/pages/AlbumPublico.jsx:144 | the rotation lies in [-5, 5] and is the hash modulo 11, shifted by 5 |
| AlbumPublicoPage.TiltOf | src/pages/AlbumPublico.jsx:145 | the tilt is left exactly when the hash is odd |
| AlbumPublicoPage.PolaroidExamples | src/pages/AlbumPublico.jsx:139-145 | an empty id gives rotation -5 and tilts right; "a" gives 4 and tilts left |
| RequireAuthGate.Step | src/components/RequireAuth.jsx:10-19 | getSession stores the session and ends loading; an auth change stores the session only; teardown unsubscribes; nothing changes after teardown |
| RequireAuthGate.Run | src/components/RequireAuth.jsx:6-19 | the gate after a sequence of callbacks, from the mounted state |
| RequireAuthGate.Render | src/components/RequireAuth.jsx:22-25 | the placeholder while loading, the redirect to "/login" when not loading without a session, the children exactly when not loading with a session |
| RequireAuthGate.SubscribedUntilTeardown | src/components/RequireAuth.jsx:15-19 | the gate is subscribed exactly until teardown |
| RequireAuthGate.LoadingUntilSessionLoaded | src/components/RequireAuth.jsx:10-17 | the gate stops loading exactly once getSession has answered; an auth change never ends loading |
| RequireAuthGate.SessionIsLatest | src/components/RequireAuth.jsx:10-17 | while subscribed, the session is the one the latest callback carried |
| RequireAuthGate.ChildrenOnlyAfterSessionLoaded | src/components/RequireAuth.jsx:6-25 | the children appear only after getSession has answered and with a session; before that, only the placeholder |
| RequireAuthGate.RequireAuth.constructor | src/components/RequireAuth.jsx:6-7 | the gate mounts loading, without a session, subscribed |
| RequireAuthGate.RequireAuth.OnGetSession | src/components/RequireAuth.jsx:10-13 | the result of getSession is one Step with SessionLoaded |
| RequireAuthGate.RequireAuth.OnAuthStateChange | src/components/RequireAuth.jsx:15-17 | an auth change is one Step with AuthChanged |
| RequireAuthGate.RequireAuth.Unmount | src/components/RequireAuth.jsx:19 | teardown releases the subscription |

## Left out

- Supabase internals are not modelled: query planning, row-level security, the `order("created_at")` clauses, network behaviour. Selects answer in table order. Each provider error is a `fault` parameter.
- Ids and creation times assigned by the store are parameters of the insert methods.
- The `data || []` fallback for a null answer is not modelled; a successful select answers the rows.
- `Slug.Lower` and `Slug.Decompose` implement `toLowerCase` and `normalize("NFD")` only for ASCII and the lower-case Latin-1 letters with one accent. Other scripts, canonical reordering and mark composition beyond that table are not captured.
- QR image generation is a function parameter `encode`, and its promise never rejects in the model. The clipboard, `alert`, `confirm`, navigation, `document.body.style` and all rendering are also left out.
- `crypto.randomUUID()` is an opaque token parameter.
- Browser form validation (`required`) and the form reset (`e.target.reset()`) are DOM side effects and are not modelled.
- `deleteAlbum`, `deleteMemory`, the legacy page's `login`/`logout`, the Dashboard's `logout`, and the Home, Login and App files are not part of this model.
- Each handler runs as one sequential step. Interleavings of concurrently pending requests are not modelled. Examples: a reload issued by createAlbum without `await`, or a getSession answer arriving after an auth change.
- The Dashboard's listener teardown (`unsubscribe`, `removeEventListener`) is not modelled. Only RequireAuth's subscription is.
- AlbumPublicoPage.SumCodes: JavaScript numbers are exact only up to 2^53. The model's unbounded sum differs only for ids of more than about 10^11 characters.
- AlbumAdminPage.AlbumAdmin.AddMemory: the intermediate "Salvando..." status and `saving == true` during the requests are not visible in the final state the contract describes.

## Findings

| source | as written | input that shows it | evidently intended | confidence | as-written member | corrected member |
|---|---|---|---|---|---|---|
| src/pages/Admin.jsx:45-57 | the upload's `error` is never examined, and the row is inserted regardless | a picked photo "f.jpg", an upload answering a network error, a successful insert | insert only after the upload succeeded, as src/pages/AlbumAdmin.jsx:95 does | medium, not executed | AdminPage.AsWrittenLosesPhotos | AdminPage.CheckedKeepsPhotosPresent |
