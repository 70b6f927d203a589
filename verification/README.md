# our-journey: a Dafny model of the memory timeline's data logic

our-journey is a personal timeline. Each memory has a title, a description, a
date, an optional location and a list of photos or videos. Memories and their
media live in two tables of a hosted database, `memories` and `media`. The
files live in a storage bucket named `memories`. A signed-in admin creates
memories, the dashboard lists them, and the public page draws them as a stack
of cards.

This project models that logic as pure functions over an immutable store and
proves what each piece guarantees. The store (module `Backend`) is a record of
four parts:

- the `memories` table, as a map from row id to row;
- the `media` table, likewise;
- the bucket, as a map from object path to bytes;
- a single counter from which the model draws the keys of new rows in
  both tables.

Every call a page makes to the backend is appended to a trace. The call's
reply comes from a script, read at the call's position in the trace. A reply
is a success, an error, or "no row" for an insert that asks for its row back.
So one click on a page is a deterministic function of four things: the store,
the form, the clock readings and the script.

The modelled parts:

- **Three create workflows.**
  - `AdminNew` is `src/app/admin/new/page.tsx`. It inserts the memory, then for
    each file uploads the object under `<memory id>/...` and inserts a media
    row that stores the object's path.
  - `AdminMemoriesNew` is `src/app/admin/memories/new/page.tsx`. Its loop is
    the same, but each row stores the object's public URL and an
    `order_index`, with no owner.
  - `AddMemoryForm` is `src/components/AddMemoryForm.tsx`. It uploads one image
    under `images/` first and inserts the memory after.
  - None of the three rolls anything back. The lemmas give the exact store
    left by every partial failure.
  - The two multi-file pages share one loop, `Backend.RunSteps`.
- **The dashboard's read side** (`Dashboard`, from `src/app/admin/page.tsx`):
  - the two fetches and the client-side join of media to memories;
  - the "Visual Memories" and "Places Remembered" counters;
  - the five latest memories.
- **The public page** (`Timeline`, from `src/app/page.tsx`):
  - the development-only "clear all" button, which deletes media before
    memories;
  - the card drawn for each memory;
  - the number printed under each card.
- **The request gate** (`Middleware`, from `src/middleware.ts`): the redirect
  decision and the route matcher.
- **Small helpers:**
  - MIME-type classification (`MediaTypes`);
  - the selected-file lists of the admin pages and the drop-zone uploader
    (`FileLists`);
  - the card's stored-image URL rewrite (`MemoryCard`);
  - the hover name cycle (`AnimatedName`);
  - the decimal, padding, split and extension helpers (`Text`).

Row shapes (`Rows`) follow `src/types/index.ts` and the interfaces in
`src/app/page.tsx`. For the type of ids the model follows
`src/types/index.ts`, which declares `id` and `memory_id` as numbers; the
interfaces in `src/app/page.tsx` and `src/types/database.ts` declare them
as strings. Ids are natural numbers. The model assigns them from its
one counter; the real database's key sequences are not modelled (see
"Left out").

Facts about the code that the model keeps as written:

- `admin/new` stores the object's bucket path in a media row's `url`.
  `admin/memories/new` stores the object's full public URL there.
  `AdminNew.Plan` and `AdminMemoriesNew.StepAt` state each.
- Only `admin/memories/new` sets a media row's `order_index`. `admin/new`
  leaves it null.
- `admin/memories/new` never checks that the memory insert returned a row: it
  reads `memory.id` only inside the file loop.
  - So an insert that returns no row, with no files selected, still goes on to
    the dashboard, having written nothing.
  - With files selected, the same insert fails on the null read.
  - `AdminMemoriesNew.SubmitNavigates` and `AdminMemoriesNew.SubmitNamed`
    state both cases.
- The two multi-file pages classify MIME types differently. `admin/new`
  stores `image` for `image/...` and `video` for everything else.
  `admin/memories/new` stores `video` for `video/...` and `image` for
  everything else.
- `admin/new` stores the location verbatim, so an empty field becomes an
  empty string. The other two pages store an empty location as null. The
  dashboard counts a place only for a truthy location, so the three pages
  agree on the count (`Dashboard.PlaceIffLocationTyped`).

## Model

| member | source | states |
|---|---|---|
| AdminNew.Submit | src/app/admin/new/page.tsx:20-115 | Without a user id the page goes to /login having made no call. An error reply to the memory insert, or no row back, fails after that one call. A failing file index is always a real file. |
| AdminNew.SubmitStampsOwner | src/app/admin/new/page.tsx:35-47 | The only new memory row sits under the counter and carries the session user's id. Every new media row carries the same user id and points at that memory. |
| AdminNew.SubmitPaths | src/app/admin/new/page.tsx:63-69 | Every object a click adds to the bucket lies under `<memory id>/`. |
| AdminNew.SubmitUrls | src/app/admin/new/page.tsx:82-91 | Every new media row's `url` is the path of an object this click added, one that was not in the bucket before. |
| AdminNew.SubmitUploadFails | src/app/admin/new/page.tsx:63-80 | When the upload of file k fails, the memory row, k media rows and k objects remain. Nothing that existed before is lost. |
| AdminNew.SubmitRowFails | src/app/admin/new/page.tsx:72-96 | When the media row of file k is rejected, the memory row, k media rows and k + 1 objects remain. Nothing that existed before is lost. |
| AdminNew.SubmitOrphan | src/app/admin/new/page.tsx:72-96 | When the media row of file k is rejected, that file's object is new in the bucket and no new media row refers to it. |
| AdminNew.SubmitNavigates | src/app/admin/new/page.tsx:59-108 | The page reaches /admin exactly when the memory row, one media row per file and one object per file were all written. |
| AdminNew.SubmitInsertsFirst | src/app/admin/new/page.tsx:35-74 | If any call is made, the memory insert is the first call and the only memory insert, so no upload comes before it. |
| AdminNew.PlanPath | src/app/admin/new/page.tsx:64-69 | File k is uploaded at `<memory id>/<clock k>-<random id k>.<ext of file k>`. |
| AdminNew.Plan | src/app/admin/new/page.tsx:63-91 | One loop step per file, in order. Each step carries the file's bytes, and its row carries the memory id, the path as `url`, the image-prefix kind, no order index and the session user as owner. |
| AdminMemoriesNew.SubmitNamed | src/app/admin/memories/new/page.tsx:48-135 | Without a user, no call is made. An error reply to the insert fails after that call alone. No row back fails on the null read exactly when there are files, and navigates when there are none. A failing file index is always a real file. |
| AdminMemoriesNew.MemoryFor | src/app/admin/memories/new/page.tsx:61-74 | The memory row holds the form's title, description and date. It has a null location exactly when the field was empty, and otherwise the field's text. It has no image URL and is owned by the user. |
| AdminMemoriesNew.SubmitMemoryRow | src/app/admin/memories/new/page.tsx:54-74 | The only new memory row sits under the counter. It is owned by the signed-in user, holds the form's title and description, and has a null location exactly when the field was empty. |
| AdminMemoriesNew.StepAt | src/app/admin/memories/new/page.tsx:77-107 | Step k uploads file k's bytes to path k. Its row holds that path's public URL, `order_index` k, the video-prefix kind and no owner. |
| AdminMemoriesNew.SubmitOrderIndex | src/app/admin/memories/new/page.tsx:77-107 | Each media row a click adds is file k's row for some chosen file k. Under the model's counter it has id counter + 1 + k. It belongs to the new memory, has `order_index` k and no owner, and has the kind of file k's MIME type. |
| AdminMemoriesNew.SubmitUrls | src/app/admin/memories/new/page.tsx:80-104 | Every media row a click adds, say file k's, holds the public URL of `<memory id>/<clock k>-<k>.<ext>`. The object there is new and holds file k's bytes. |
| AdminMemoriesNew.PathsDistinct | src/app/admin/memories/new/page.tsx:80-81 | Two files of one memory never share an object path, whatever the clock reads. |
| AdminMemoriesNew.SubmitUploadFailureCause | src/app/admin/memories/new/page.tsx:84-89 | A failed upload of file k got an error reply, or hit an object that was in the bucket before the click. It never collides with an earlier file of the same click. |
| AdminMemoriesNew.NamedUploadFails | src/app/admin/memories/new/page.tsx:77-89 | For any paths, a failed upload of file k got an error reply to call 2k + 1, or hit an object that was there before, or reused an earlier file's path. |
| AdminMemoriesNew.NamedAdds | src/app/admin/memories/new/page.tsx:77-107 | For any paths, the new rows are the loop steps' rows under the ids after the counter, and each new row's object is new and holds the step's bytes. |
| AdminMemoriesNew.SubmitNavigates | src/app/admin/memories/new/page.tsx:77-122 | The page reaches /admin exactly when the memory row, one media row per file and one object per file were written, or when the insert returned no row and no file was chosen. |
| AdminMemoriesNew.SubmitUploadFails | src/app/admin/memories/new/page.tsx:77-89 | When the upload of file k fails, the memory row, k media rows and k objects remain. Nothing is undone. |
| AdminMemoriesNew.SubmitRowFails | src/app/admin/memories/new/page.tsx:84-107 | When the row of file k is rejected, the memory row, k media rows and k + 1 objects remain. Nothing is undone. |
| AdminMemoriesNew.SubmitEnabled | src/app/admin/memories/new/page.tsx:271 | The submit button is enabled exactly when no submission is running and both the title and the description are non-empty. |
| AdminMemoriesNew.SubmitEnabledIgnoresDate | src/app/admin/memories/new/page.tsx:271 | Changing the date or the location never changes whether the button is enabled. A form with a title and a description is enabled whenever no submission is running. |
| AddMemoryForm.SubmitTrace | src/components/AddMemoryForm.tsx:26-81 | When signed in, a chosen image is uploaded first, to `images/<clock>.<ext>`. The memory insert happens exactly when signed in and the upload did not fail. A click makes at most two calls. |
| AddMemoryForm.UploadFailureWritesNothing | src/components/AddMemoryForm.tsx:48-60 | A failed upload leaves the store as it was, so there is no memory row without its image. |
| AddMemoryForm.InsertFailureOrphansImage | src/components/AddMemoryForm.tsx:53-81 | A rejected insert leaves the memory table as it was. The only change is a new object under `images/` at the uploaded path, or no change at all when no image was chosen. |
| AddMemoryForm.SubmitSaved | src/components/AddMemoryForm.tsx:44-81 | A saved form adds exactly one memory row, and the memories table changes by that row alone. The row holds the form's title, description and date, is owned by the session user, and has a null location exactly when the field was empty. Its `image_url` is absent exactly when no image was chosen, and otherwise is the public URL of the uploaded object, which holds the image's bytes. |
| AddMemoryForm.SubmitKeeps | src/components/AddMemoryForm.tsx:44-58 | Whatever the replies, nothing is removed or overwritten, no media row is written, and at most one object and one memory row are added. |
| AddMemoryForm.Submit | src/components/AddMemoryForm.tsx:18-93 | A session-lookup error and a missing session each fail with no call made. The upload fails exactly when signed in with an image chosen and either the reply is an error or the path already holds an object. |
| AddMemoryForm.ImagePathShape | src/components/AddMemoryForm.tsx:49-55 | The image path is `images/` followed by the clock reading in decimal, a '.', and the file's extension. |
| AddMemoryForm.ImagePathInjective | src/components/AddMemoryForm.tsx:49-50 | Two image paths are equal only when the clock readings and the extensions are equal. |
| AddMemoryForm.MemoryFor | src/components/AddMemoryForm.tsx:70-79 | The memory row has a null location exactly when the field was empty, carries the given image URL and is owned by the user. |
| Backend.RunStepsUploadFails | src/app/admin/new/page.tsx:72-79 | The shared file loop stops at an upload only when the reply was an error, the path already held an object, or an earlier file of the loop used the same path. |
| Backend.InsertThenLoop | src/app/admin/new/page.tsx:35-100 | After a successful memory insert and the loop, the new memory is the only new memory row and nothing is lost. The store stays valid, the loop's rows and objects are added on top, and the insert is the first and only memory insert. |
| Backend.RunStepsKeeps | src/app/admin/memories/new/page.tsx:77-109 | The loop leaves the memories table alone and undoes nothing. The counter advances by the number of completed files. |
| Backend.RunStepsTrace | src/app/admin/memories/new/page.tsx:77-109 | The loop's calls are one upload then one row insert per file, in file order, up to the call that failed. |
| Backend.RunStepsRows | src/app/admin/new/page.tsx:82-96 | Exactly one media row is added per completed file, in file order, under the model counter's next ids. |
| Backend.RunStepsBlobs | src/app/admin/new/page.tsx:72-79 | Exactly one object is added per successful upload, each at its file's path, none overwritten, at distinct paths. |
| Backend.RunStepsValid | src/app/admin/new/page.tsx:82-96 | The loop keeps every media row pointing at an existing memory, as the foreign key requires. |
| Backend.InsertMedia | src/app/admin/new/page.tsx:82-91 | A media insert succeeds exactly when the reply is not an error and the row's memory exists. It then writes that row under the counter, and otherwise writes nothing. |
| Backend.Upload | src/app/admin/new/page.tsx:72-74 | An upload without `upsert` succeeds exactly when the reply is not an error and the path is free. It then writes the object, and otherwise writes nothing. |
| Dashboard.MediaOfContents | src/app/admin/page.tsx:83 | A memory's media are exactly the fetched media whose `memory_id` is its id. |
| Dashboard.MediaOfAppend | src/app/admin/page.tsx:83 | The filter keeps fetch order: filtering two lists one after the other gives the two filtered lists one after the other. |
| Dashboard.MediaOfSorted | src/app/admin/page.tsx:73-83 | When the media fetch is sorted by `order_index` (nulls last), every memory's media list is sorted too. |
| Dashboard.Join | src/app/admin/page.tsx:81-84 | The joined list has the memories fetch's length and order. A null memories result gives an empty list, and null media give every memory an empty media list. |
| Dashboard.JoinMedia | src/app/admin/page.tsx:81-84 | Entry i holds exactly the fetched media pointing at memory i. |
| Dashboard.OrphanMediaShownNowhere | src/app/admin/page.tsx:83 | A media row pointing at no fetched memory is in no entry. |
| Dashboard.FetchMemories | src/app/admin/page.tsx:62-93 | Loading ends whatever happens. The error is set exactly when either fetch failed, and a failure keeps the list. When both fetches succeed, the list has one entry per fetched memory. |
| Dashboard.VisualCount | src/app/admin/page.tsx:173 | The "Visual Memories" count is at most the total. |
| Dashboard.VisualCountFull | src/app/admin/page.tsx:173 | The visual count equals the total exactly when every memory has a media row. |
| Dashboard.VisualMeansSomeMedia | src/app/admin/page.tsx:173 | A joined memory counts as visual exactly when some fetched media row points at it. |
| Dashboard.PlacesCount | src/app/admin/page.tsx:186 | The "Places Remembered" count is at most the total. |
| Dashboard.PlacesCountNone | src/app/admin/page.tsx:186 | The places count is zero exactly when no memory has a truthy location. |
| Dashboard.PlaceIffLocationTyped | src/app/admin/page.tsx:186 | For a row from any of the three create pages, a place is counted exactly when a location was typed. |
| Dashboard.Latest | src/app/admin/page.tsx:223 | The latest list is a prefix of the memories, of length min(5, n). |
| Dashboard.LatestIdempotent | src/app/admin/page.tsx:223 | Taking the latest five of the latest five changes nothing. |
| Timeline.ClearAll | src/app/page.tsx:79-110 | Outside development, or when the dialog is dismissed, nothing happens and no alert shows. A success alert means both tables and the list are empty. Otherwise the list is kept. |
| Timeline.ClearOrder | src/app/page.tsx:86-99 | The media delete comes first. The memories delete follows only when the media delete succeeded. The clear succeeds exactly when neither delete got an error reply. |
| Timeline.ClearMediaRefused | src/app/page.tsx:86-91 | A refused media delete leaves the store and the list as they were. |
| Timeline.ClearMemoriesRefused | src/app/page.tsx:94-99 | A refused memories delete after a successful media delete leaves no media rows, every memory row, all objects, and the list. |
| Timeline.ClearSucceeded | src/app/page.tsx:86-101 | A full clear empties both tables and the list. The bucket's objects stay. |
| Timeline.MemoriesFirstRefused | src/app/page.tsx:85-99 | While media rows exist, deleting the memories first is refused whatever the reply, under the model's restricting foreign key. |
| Timeline.CardFor | src/app/page.tsx:151-252 | A memory is drawn as the description card exactly when it has no media, and that card shows its description. |
| Timeline.CardShowsFirstThree | src/app/page.tsx:163-231 | A photo stack shows the URLs of the first three media rows in order, or all of them when there are fewer. `media[k]` is read only when it exists. |
| Timeline.NumberLabel | src/app/page.tsx:287 | The label is digits followed by a '.'. It is three characters for the first nine cards; from the tenth on it is the plain decimal with no leading zero. |
| Timeline.TenthLabel | src/app/page.tsx:287 | The tenth card's label is "10.", not a padded "010.". |
| Timeline.NumberLabelReadsBack | src/app/page.tsx:287 | The label's digits read back as the 1-based position. |
| Timeline.NumberLabelShape | src/app/page.tsx:287 | The first nine labels are "01." to "09.", and two positions never share a label. |
| Middleware.Decide | src/middleware.ts:5-25 | A request is sent to /login exactly when its path textually starts with "/admin" and there is no session. It is sent to /admin exactly when the path is "/login" and there is a session. |
| Middleware.RedirectTargetPasses | src/middleware.ts:11-24 | No redirect loop: the page a redirect sends to passes the gate for the same visitor. |
| Middleware.SignedInAdminPasses | src/middleware.ts:11-24 | A signed-in visit to any /admin path passes, and so does a signed-out visit to /login. |
| Middleware.Route | src/middleware.ts:27-29 | Paths the matcher does not select pass untouched. |
| Middleware.AdminPathsGated | src/middleware.ts:11-29 | Every matched path other than /login is redirected to /login without a session and passes with one. |
| Middleware.TextualPrefix | src/middleware.ts:11 | The prefix test is textual: the decision gates "/administrator" and "/admin/login", but the matcher never routes "/administrator" to it. |
| MediaTypes.KindByImagePrefix | src/app/admin/new/page.tsx:88 | The kind is `image` exactly when the MIME type starts with "image/". |
| MediaTypes.KindByVideoPrefix | src/app/admin/memories/new/page.tsx:103 | The kind is `video` exactly when the MIME type starts with "video/". |
| MediaTypes.PrefixesExclusive | src/app/admin/new/page.tsx:88 | No MIME type starts with both "image/" and "video/". |
| MediaTypes.ClassifiersAgree | src/app/admin/memories/new/page.tsx:103 | The two create pages store the same kind exactly for "image/..." and "video/..." types. On any other type, the first stores a video and the second an image. |
| MediaTypes.PreviewMatchesStoredKind | src/components/MediaUploader.tsx:71 | The uploader previews a video exactly when `admin/memories/new` would store a video. |
| FileLists.Select | src/components/MediaUploader.tsx:18-26 | Appending keeps the old entries as a prefix. The new files follow, in order. |
| FileLists.SelectWellHandled | src/app/admin/memories/new/page.tsx:30-37 | After an append, every entry still has its own preview handle. |
| FileLists.RemoveAt | src/app/admin/page.tsx:108-115 | Removal by index is defined exactly for an index in range. It shortens the list by one, keeps the entries before the index, and shifts the entries after it down by one. |
| FileLists.RemoveAtMultiset | src/app/admin/memories/new/page.tsx:39-46 | Removal by index takes out exactly the entry at that index. The rest of the list is kept as a multiset. |
| FileLists.SelectThenRemove | src/app/admin/memories/new/page.tsx:30-46 | Removing the entry just added by a one-file select gives back the list as it was before. |
| FileLists.Without | src/components/MediaUploader.tsx:37-40 | The filtered list is no longer than the original and has no entry identical to the removed one. |
| FileLists.WithoutContents | src/components/MediaUploader.tsx:39 | An entry stays after the filter exactly when it was in the list and is not the removed one. |
| FileLists.WithoutAbsent | src/components/MediaUploader.tsx:39 | Removing an entry that is not in the list changes nothing. |
| FileLists.WithoutIsRemoveAt | src/components/MediaUploader.tsx:37-40 | With preview handles distinct, the uploader's removal by identity equals the admin pages' removal by index. |
| MemoryCard.GetPublicUrl | src/components/MemoryCard.tsx:18-32 | An undefined or empty URL gives undefined. Otherwise the result is the input URL or a URL on the fixed host under `/storage/v1/object/public/memories/images/`. |
| MemoryCard.Search | src/components/MemoryCard.tsx:23 | The regular expression matches at the leftmost position where it can, and the group it returns is the text that follows the prefix there. When it finds no match, there is none anywhere. |
| MemoryCard.RewritesStoredImage | src/components/MemoryCard.tsx:22-26 | A pathname `/storage/v1/object/(sign or public)/memories/images/X`, with X non-empty, free of line breaks and with no '?' after its first character, is rewritten to the fixed host's public URL of X, whatever the original host. |
| MemoryCard.NoMatchUnchanged | src/components/MemoryCard.tsx:27-31 | A pathname without a match, or a URL the parser rejects, gives back the input URL. |
| MemoryCard.RewriteIdempotent | src/components/MemoryCard.tsx:23-26 | A rewritten URL, parsed again, is rewritten to itself. |
| MemoryCard.GroupIsClean | src/components/MemoryCard.tsx:23 | A captured group is `memories/images/` followed by at least one character. No character after the folder is a line break, and none after the first one is a '?': the lazy `.+?` takes its first character whatever it is. |
| MemoryCard.LeadingQuestionMarkKept | src/components/MemoryCard.tsx:23 | A name that starts with '?' is still captured whole: `.+?` takes the '?' as its first character. |
| MemoryCard.LazyEnd | src/components/MemoryCard.tsx:23 | The lazy `.+?(?:\?|$)` ends at the first '?' or at the end of the string, and fails on a line break before either. No character it passes over is a '?' or a line break. |
| MemoryCard.GroupAt | src/components/MemoryCard.tsx:23 | A group found at a position is the text there, starts with `memories/images/` and has at least one character more. It is followed by a '?' or by the end of the string. |
| MemoryCard.MatchAt | src/components/MemoryCard.tsx:23 | A match at a position starts with the sign or the public prefix, and its group is the text right after that prefix. |
| Backend.InsertMemory | src/app/admin/new/page.tsx:35-47 | The memory insert adds the call to the trace. It succeeds exactly when the reply is a success, or "no row" when the row is not asked back. It then writes the row under the model's counter and advances it, and otherwise writes nothing. |
| Backend.DeleteAllMedia | src/app/page.tsx:86-91 | The media delete succeeds exactly when the reply is not an error. It then empties the media table and changes nothing else, and otherwise changes nothing. |
| Backend.DeleteAllMemories | src/app/page.tsx:94-99 | The memories delete succeeds exactly when the reply is not an error and no media row remains. It then empties the memories table and changes nothing else, and otherwise changes nothing. |
| Backend.PublicUrl | src/components/AddMemoryForm.tsx:63-67 | A public URL starts with the project's base URL and ends with the object's path. |
| Backend.PublicUrlInjective | src/app/admin/memories/new/page.tsx:92-95 | Two objects never share a public URL: equal URLs mean equal paths. |
| Backend.RunSteps | src/app/admin/memories/new/page.tsx:77-109 | The loop completes no more files than it is given, and it reports completion exactly when every file was done. It uploads no more files than it is given. |
| AdminMemoriesNew.Submit | src/app/admin/memories/new/page.tsx:48-135 | Without a user, the click fails with no call made. An error reply to the insert fails after that one call. "No row" fails on the null read exactly when there are files. A failing file index is always a real file. |
| AdminMemoriesNew.StoragePath | src/app/admin/memories/new/page.tsx:80-81 | The path lies under `<memory id>/` and ends with '.' and the file's extension. |
| AdminNew.StoragePath | src/app/admin/new/page.tsx:64-69 | The path lies under `<memory id>/` and ends with '.' and the file's extension. |
| AdminNew.MemoryFor | src/app/admin/new/page.tsx:35-47 | The memory row holds the form's title, description and date. It keeps the location verbatim, even when empty, has no image URL and is owned by the user. |
| AddMemoryForm.ImagePath | src/components/AddMemoryForm.tsx:49-50 | The image path lies in the `images/` folder and ends with '.' and the file's extension. |
| Dashboard.MediaOf | src/app/admin/page.tsx:83 | A memory's media list is no longer than the fetch, and every entry points at that memory. |
| Text.Decimal | src/app/admin/memories/new/page.tsx:81 | `String(n)` is a non-empty run of digits with no leading zero, except for 0 itself. |
| AnimatedName.Run | src/components/ui/AnimatedName.tsx:17-41 | Events from a state that keeps the invariant lead to one that keeps it. A run whose last event is the cursor leaving ends in the initial state. |
| AnimatedName.Step | src/components/ui/AnimatedName.tsx:13-41 | The timer runs only while hovered. Leaving resets the index to 0, and a tick without hover changes nothing. |
| AnimatedName.RunKeepsInv | src/components/ui/AnimatedName.tsx:4-23 | After any sequence of events, the index names one of the six names, and it is 0 when not hovered. |
| AnimatedName.Shown | src/components/ui/AnimatedName.tsx:26-28 | When not hovered, the name shown is "Rakshitha". |
| AnimatedName.TicksAdvance | src/components/ui/AnimatedName.tsx:22-24 | n ticks while hovered advance the index by n, modulo six. |
| AnimatedName.SixTicksCycle | src/components/ui/AnimatedName.tsx:22-24 | Any multiple of six ticks returns to the starting name. |
| AnimatedName.HoverEndResets | src/components/ui/AnimatedName.tsx:38-41 | Leaving shows the first name again, whatever was shown. |
| Text.Extension | src/app/admin/new/page.tsx:64 | The extension is the longest suffix with no '.', taken after the last '.'. It is the whole name when the name has no '.'. |
| Text.JoinSplit | src/app/admin/new/page.tsx:64 | Joining the pieces of `split` with the same separator gives back the string. |
| Text.LastPieceIsSuffix | src/app/admin/memories/new/page.tsx:80 | The last piece of `split` is a suffix of the string. Unless it is the whole string, a separator comes right before it. |
| Text.ParseDecimalOfDecimal | src/app/admin/memories/new/page.tsx:81 | A rendered id or clock reading reads back as the same number. |
| Text.DecimalInjective | src/app/admin/memories/new/page.tsx:81 | Different numbers render differently. |
| Text.PadStart | src/app/page.tsx:287 | The padded string has length max(width, original). It ends with the original and is filled before it. |
| Text.Split | src/app/admin/new/page.tsx:64 | `split` gives at least one piece, and no piece contains the separator. It gives a single piece exactly when the string has no separator. |

## Left out

- JSX, animation variants, Tailwind classes, fonts and the page layout are
  presentation.
- The floating-point parts are not modelled:
  - the scroll progress;
  - the gallery index;
  - the gallery progress bar, which divides by zero for a memory with a
    single media item (`src/app/page.tsx:434`);
  - the upload percentage of `admin/new`.
- Supabase client construction and the environment checks are not modelled.
  The backend is the abstract store of `Backend`.
- The thin API route handlers are not modelled. The memories GET returns rows
  without a `media` field, yet the public page reads `memory.media`
  (`src/app/page.tsx:151`). The model's `Timeline` takes entries that already
  hold their media, as the dashboard's join produces them.
- Date formatting is done by a foreign library and is not modelled.
- The password overlay, the admin layout and the admin navigation are not
  modelled. The latter two only repeat the request gate's redirect on the
  client.
- The presentational components are left out: the memories grid, the
  `ui/MemoryCard` card, the image fallback and the spinner.
- The drop zone's `accept` and `maxSize` checks, and creating and revoking
  object URLs, belong to foreign libraries. A chosen file's preview is modelled
  by a handle that is never reused (`FileLists.Selected.preview`). That handle
  also stands for JavaScript object identity in the uploader's `!==` filter.
- The build and development scripts are not modelled.
- Concurrency is not modelled: React state batching, several tabs, and the race
  between the dashboard's two fetches. Each click is one sequential run.
- `Date.now()`, `Math.random()` and the URL parser's result are inputs, not
  modelled behaviour:
  - clock readings are the `ticks` and `clock` arguments;
  - random ids are the `Tick.uniqueId` field;
  - `new URL(url).pathname` is the `pathname` argument of
    `MemoryCard.GetPublicUrl`, `None` when the parser throws.
- The database's sort orders (`created_at` descending, `order_index` ascending)
  are not modelled. The dashboard takes the fetched sequences in the order
  given. `Dashboard.MediaOfSorted` states what the join keeps of that order.
- The `emoji` column is not modelled. No create page writes it, and no
  modelled logic reads it.
- AdminMemoriesNew.MemoryFor leaves out the `created_at` column.
  `admin/memories/new` stamps it with the clock's ISO time
  (`src/app/admin/memories/new/page.tsx:68`); the other two pages leave it to
  the database. The model's rows have no such column, because no modelled
  logic reads it: the dashboard's newest-first order is the database's sort,
  which is not modelled either.
- The session lookup is an input (`Backend.Auth`). `admin/new` redirects only
  when the session has no user id. `AddMemoryForm` also treats a lookup error
  as a failure; the model's `AuthFailed` covers it.
- MemoryCard.GetPublicUrl is stated weaker than "the output never contains
  `/object/sign/`". That statement is false when an object's own name
  contains that text, so the contract says only that a rewritten URL starts
  with the fixed public prefix.
- MemoryCard.RewritesStoredImage assumes the name holds no line break and no
  '?' after its first character; a leading '?' is covered by
  `MemoryCard.LeadingQuestionMarkKept`. A parsed URL's pathname never holds a
  '?', which starts the query.
  The parser also drops '\n' and '\r' and percent-encodes U+2028 and U+2029. The
  general case is covered by `MemoryCard.Search`, `MemoryCard.GroupIsClean`
  and `MemoryCard.RewriteIdempotent`, which take any pathname.
- Backend.Store draws the ids of both tables from one counter with no gaps.
  The real database gives each table its own key sequence, and a failed insert
  may use up a key. So the exact ids in `AdminMemoriesNew.SubmitOrderIndex`,
  `Backend.RunStepsRows` and `Backend.InsertMemory` ("counter + 1 + k",
  "the counter's next ids") belong to the model. The facts that hold without
  them are that rows are added in file order under fresh ids.
- Backend.DeleteAllMemories refuses to delete while media rows remain. The
  foreign key's delete rule is not part of this model's sources, so this
  restricting rule is an assumption. With a cascading rule the memories
  delete would succeed and take the media with it, and
  `Timeline.MemoriesFirstRefused` would not hold.
- Backend.PublicUrl joins the base URL, the bucket and the path as plain text.
  The client library also percent-encodes the result (`encodeURI`); that
  encoding is not modelled.
