# ai-pdf-chat in Dafny

A model of the behaviour of ai-pdf-chat. In this web app a user uploads a
PDF, the server indexes it, and the user then chats with it through a
streaming answer. The model covers:

- **The client chat cache** (`ChatCache`, `ChatUpdates`, `ChatContext`).
  - The cached message pages are objects whose message list can be assigned
    in place.
  - The send lifecycle is modelled step by step: back up and clear the
    input, the optimistic insert, the stream loop that upserts the
    `"ai-response"` placeholder after every read, the rollback on error, and
    the settle step.
  - Each cache updater is a function on page values, and its properties are
    proved as lemmas: at most one placeholder, only the first page changes,
    re-applying an accumulator changes nothing, and the cursor is kept.
- **The read side.**
  - The message list (`MessagesView`): flattening, the loading
    pseudo-message, the same-sender flag, and the render branch.
  - The chat pane's poll-stop rule and its view chain (`ChatWrapper`).
- **The server.** The database is modelled as three tables (`Database`).
  - The message route (`MessageRoute`): guard order, persistence order, the
    six-message history window, and the role mapping.
  - The upload route (`UploadCore`): PROCESSING, then SUCCESS or FAILED.
  - The tRPC procedures (`AppRouter`), all scoped to the calling user.
- **The other components.**
  - The PDF toolbar (`PdfRenderer`): page clamping, the page-field
    validator, zoom, and rotation.
  - The upload dialog (`UploadButton`): the simulated progress, the upload
    hand-off, and the open/close rule.
  - The dashboard's in-place sort and render branch (`Dashboard`).
  - The redirect rule after sign-in (`AuthCallback`).

`Common` holds `Option`/`Result` and the two JavaScript conversions the
toolbar uses: `String(n)` and `Number(s)`.

Some things one might expect are not in the code, and the model follows the
code:

- **The rollback does not restore the cache.** It writes a flat list under
  the `{fileId}` key. It does not touch the `{fileId, limit}` infinite entry
  that the optimistic insert changed.
- **The rollback list is not the old list.** The snapshot is read with no
  input and flattened only after the in-place assignment
  `latestPage.messages = …`. So when the snapshot is the live entry, the
  rollback list already starts with the optimistic message
  (`ChatContext.ChatProvider.OnMutate`, `ChatContext.ChatProvider.AddMessage`).
- **The history window is the oldest six messages** of the file, not the
  newest.
- **Ingestion has no page quota.** The page count is unused.
- **An empty input is sent.** `addMessage` sends whatever the input holds.
- **A PENDING status shows the chat view**, with polling still on.
- **The page field accepts fractions.** The check only asks for a number in
  (0, total], so "0.5" is accepted and becomes the page, below page 1. From
  a page between 1 and 2 the previous-page button lands on page 1 but writes
  a number below 1 into the field (`PdfRenderer.HalfPageAccepted`,
  `PdfRenderer.PrevFieldBelowPage`).
- **A failed answer keeps the question.** The question is stored before the
  foreign calls, so a throw there leaves it stored while the request fails.
- **The body is read before the caller is checked.** Text that is not JSON
  fails the request even for a caller who is not signed in.

## Model

| member | source | states |
|---|---|---|
| `Common.NumberOfIntToString` | src/components/PdfRenderer.tsx:104 | `Number(String(n)) == n` for every integer, as a whole decimal. |
| `Common.NumberOfText` | src/components/PdfRenderer.tsx:104 | `Number(String(x))` is x for every decimal, in its shortest spelling: what a prev/next click writes into the field reads back as the number written. |
| `ChatCache.FlattenAppend` | src/components/chat/Messages.tsx:27 | Flattening keeps page order: the messages of earlier pages come before those of later pages. |
| `ChatCache.FlattenLength` | src/components/chat/Messages.tsx:27 | The flat list has exactly as many entries as the pages hold messages. |
| `ChatCache.FlattenMembership` | src/components/chat/Messages.tsx:27 | A message is in the flat list if and only if some page holds it. |
| `ChatCache.FlattenAfterPrepend` | src/components/chat/ChatContext.tsx:83-111 | Putting a message at the front of the first page puts it at the front of the flat list and leaves everything else in order. |
| `ChatUpdates.SetPlaceholderText` | src/components/chat/ChatContext.tsx:175-184 | Every `"ai-response"` message gets the accumulator as its text and keeps its other fields; every other message is kept; the length is kept. |
| `ChatUpdates.UpsertPages` | src/components/chat/ChatContext.tsx:157-196 | The per-chunk updater keeps the page count, leaves every page but the first untouched, and keeps every page's cursor. |
| `ChatUpdates.ChunkUpdate` | src/components/chat/ChatContext.tsx:144-150 | An absent entry becomes an empty page list instead of failing; a present one keeps its page count. |
| `ChatUpdates.PlaceholderCountIff` | src/components/chat/ChatContext.tsx:152-154 | The placeholder count is positive exactly when some message has the id `"ai-response"`. |
| `ChatUpdates.PlaceholderCountSetText` | src/components/chat/ChatContext.tsx:175-184 | Rewriting placeholder texts neither adds nor removes placeholders. |
| `ChatUpdates.UpsertRule` | src/components/chat/ChatContext.tsx:152-194 | With no placeholder on any page, the first page gains one placeholder, at its front, holding the accumulator. Otherwise each placeholder of the first page takes the new text, keeps its other fields and stays in place. |
| `ChatUpdates.UpsertIdempotent` | src/components/chat/ChatContext.tsx:142-198 | Applying the same accumulator twice gives the same cache as applying it once, whatever the clock says the second time. |
| `ChatUpdates.PrependKeepsNoPlaceholder` | src/components/chat/ChatContext.tsx:86-95 | The optimistic user message does not introduce a placeholder. |
| `ChatUpdates.UpsertOnWithPlaceholder` | src/components/chat/ChatContext.tsx:162-185 | Once the placeholder sits on top, a later chunk only rewrites its text. |
| `ChatUpdates.StreamLeavesOnePlaceholder` | src/components/chat/ChatContext.tsx:134-199 | Start from pages with no placeholder, then apply any non-empty run of reads. The first page then holds exactly one placeholder, at its front, with the concatenation of all reads. Every other message and page is unchanged. |
| `ChatUpdates.ConcatEmptyLast` | src/components/chat/ChatContext.tsx:135-139 | The final `done` read, which decodes to "", adds nothing to the accumulator. |
| `ChatContext.ReadValues` | src/components/chat/ChatContext.tsx:134-138 | The loop reads every chunk and then one `done` read. A rejected read ends the loop without that `done` read. |
| `ChatContext.Writes` | src/components/chat/ChatContext.tsx:142-198 | One cache write per read, and nothing else. |
| `ChatContext.FullStreamAnswer` | src/components/chat/ChatContext.tsx:130-199 | A body read to its end leaves exactly one placeholder on top of the first page, holding the concatenation of all chunks. The final `done` read adds nothing. |
| `ChatContext.ChatProvider.constructor` | src/components/chat/ChatContext.tsx:26-35 | The input starts empty, loading is off and the backup is empty. |
| `ChatContext.ChatProvider.HandleInputChange` | src/components/chat/ChatContext.tsx:217-219 | The input takes the typed value. |
| `ChatContext.ChatProvider.InsertOptimistic` | src/components/chat/ChatContext.tsx:64-105 | No cached value becomes `{pages: [], pageParams: []}`. A value with pages gets the message at the front of its first page, in place, with the same page objects and page parameters. A value with no page makes the updater throw. |
| `ChatContext.ChatProvider.OnMutate` | src/components/chat/ChatContext.tsx:51-113 | Steps run in order: back up, clear, cancel, snapshot, optimistic write, loading on. The throw path stops after the snapshot. The rollback list is the snapshot flattened after the write, so it already holds the new message when the snapshot is the live entry. |
| `ChatContext.ChatProvider.UpsertPlaceholder` | src/components/chat/ChatContext.tsx:142-198 | One cache write: the cached value becomes the per-chunk updater's result, with a new first page object. The page parameters are kept, or are `[]` for an absent entry. |
| `ChatContext.ChatProvider.OnSuccess` | src/components/chat/ChatContext.tsx:114-200 | Loading is cleared first. With no body: a toast and no cache write. Otherwise there is one write per read, the final `done` read included, and the cache equals the updater applied to the running concatenations. The loop stops early only when a read rejects. |
| `ChatContext.ChatProvider.OnError` | src/components/chat/ChatContext.tsx:201-209 | The input is restored from the backup. The rollback list, or `[]` without a context, is written under `{fileId}`. The live entry is left as it is. |
| `ChatContext.ChatProvider.OnSettled` | src/components/chat/ChatContext.tsx:210-214 | Loading is cleared, then this file's messages are invalidated. |
| `ChatContext.ChatProvider.AddMessage` | src/components/chat/ChatContext.tsx:38-221 | Every path ends with loading off and an invalidation. The input is restored exactly when the send fails. After a rejected POST, the live entry keeps the optimistic message. After a body is read in full, the live entry has exactly one placeholder holding the whole answer, above the optimistic message. The optimistic message takes the clock at the send, the placeholder the clock at the first read. |
| `MessagesView.CombinedShape` | src/components/chat/Messages.tsx:27-43 | The combined list is the loading entry followed by every cached message in page order: one entry more than there are cached messages. |
| `MessagesView.CombinedHoldsEveryMessage` | src/components/chat/Messages.tsx:27-43 | Every message held by any cached page is shown. |
| `MessagesView.SamePersonMeaning` | src/components/chat/Messages.tsx:52-54 | The same-sender flag compares an entry with the one before it, and is false for the first entry. |
| `MessagesView.ItemAt` | src/components/chat/Messages.tsx:56-72 | The last entry and the others are rendered with the same props, keyed by the message id. |
| `MessagesView.RenderAlwaysList` | src/components/chat/Messages.tsx:47-89 | The list branch is always taken, so the skeleton and the empty state are unreachable. The first item is the spinner. |
| `MessagesView.NextPageParamKept` | src/components/chat/Messages.tsx:20 | The next page is fetched from the last page's cursor. Neither the optimistic insert nor a chunk update moves it. |
| `ChatWrapper.RefetchInterval` | src/components/chat/ChatWrapper.tsx:22-23 | Polling stops exactly when the status is SUCCESS or FAILED. Otherwise, including with no data, it repeats every 500 ms. |
| `ChatWrapper.SelectScreen` | src/components/chat/ChatWrapper.tsx:27-89 | While loading: the loading view with the input disabled. PROCESSING: the processing view, input disabled. FAILED: the error view linking `/dashboard`, no input. Anything else: the chat of this file. |
| `ChatWrapper.PollingAndScreen` | src/components/chat/ChatWrapper.tsx:22-89 | Once polling stops, the screen is the error view or the chat. The processing view always keeps polling. Only the chat view has a usable input. PENDING or no data shows the chat while polling goes on. |
| `Database.FindFirstFile` | src/trpc/index.ts:56-63 | `findFirst` returns the first row that matches, or nothing exactly when no row matches. |
| `Database.FilesOfUser` | src/trpc/index.ts:40-44 | A row is returned if and only if it belongs to the user. |
| `Database.RemoveFile` | src/trpc/index.ts:90-95 | After the delete, a row remains if and only if it does not match both id and owner. |
| `Database.RemoveFileExactlyOne` | src/trpc/index.ts:90-95 | With unique ids, the delete removes exactly the matching row and keeps the rest in order. |
| `Database.SetStatus` | src/app/api/uploadthing/core.ts:70-86 | The status update changes only the row with that id, and only its status. |
| `Database.MessagesOf` | src/app/api/message/route.ts:65-68 | Exactly the file's messages, a sub-multiset of the table. |
| `Database.SortByCreated` | src/app/api/message/route.ts:69-71 | The result is ascending in `createdAt` and a permutation of its input. |
| `Database.OldestMessagesWindow` | src/app/api/message/route.ts:65-73 | The window holds min(6, count) of the file's messages, ascending in creation time. |
| `Database.OldestMessagesAreOldest` | src/app/api/message/route.ts:65-73 | No message of the file left out of the window is older than one in it: the window is the oldest six. |
| `Database.Db.CreateUser` | src/trpc/index.ts:25-30 | The user table grows by that one row. |
| `Database.Db.CreateFile` | src/app/api/uploadthing/core.ts:29-37 | The file table grows by that one row, and its status is logged. |
| `Database.Db.UpdateFileStatus` | src/app/api/uploadthing/core.ts:70-77 | The row with that id takes the status, and the write is logged. The update fails exactly when no row has that id. |
| `Database.Db.DeleteFile` | src/trpc/index.ts:90-95 | The file table becomes the table without the matching row. |
| `Database.Db.CreateMessage` | src/app/api/message/route.ts:39-46 | The message table grows by that one row. |
| `AppRouter.FindUser` | src/trpc/index.ts:17-22 | A user with that id, or nothing exactly when there is none. |
| `AppRouter.EnsureUserOneRecord` | src/trpc/index.ts:17-33 | After the sync there is exactly one user with the caller's id. Earlier rows are kept in place and ids stay unique. A second sync changes nothing. |
| `AppRouter.AuthCallback` | src/trpc/index.ts:8-34 | With no session user, reading its id throws: INTERNAL_SERVER_ERROR and no write. Without an id or an email: UNAUTHORIZED and no write. Otherwise the user is created if absent, and the call returns success. |
| `AppRouter.GetUserFiles` | src/trpc/index.ts:36-45 | Exactly the caller's files. |
| `AppRouter.GetFile` | src/trpc/index.ts:47-66 | A file with that key owned by the caller. NOT_FOUND exactly when there is none. |
| `AppRouter.DeleteFile` | src/trpc/index.ts:68-98 | NOT_FOUND with the table unchanged when the caller owns no such file. Otherwise exactly that row is removed and returned, and the other rows stay in order. |
| `MessageRoute.FormatHistory` | src/app/api/message/route.ts:76-79 | A user message becomes a `user` turn and any other an `assistant` turn, with the text as content, in the same order. |
| `MessageRoute.NewQuestionInWindow` | src/app/api/message/route.ts:39-73 | The question is stored before the window is read. So a file with fewer than six earlier messages always sends its new question in the history. |
| `MessageRoute.Post` | src/app/api/message/route.ts:11-130 | Checks run in the handler's order, each with no write: a throw for a body that is not JSON, a throw for a missing session user, 401 without a user id, a throw for a body the validator refuses, 404 without an owned file. Otherwise one user message is stored. If a foreign call then throws, the request fails and the message stays stored. Else the prompt carries the passages found and the oldest six of the file's messages, the new one included. |
| `MessageRoute.OnCompletion` | src/app/api/message/route.ts:117-127 | Exactly one assistant message with the whole completion is stored, for the same user and file. |
| `UploadCore.Middleware` | src/app/api/uploadthing/core.ts:16-26 | Unauthorized exactly when the user is missing or has no id. Otherwise the metadata carries that id. |
| `UploadCore.FinalStatus` | src/app/api/uploadthing/core.ts:43-87 | The last status is SUCCESS exactly when no pipeline step threw, otherwise FAILED; never PROCESSING. |
| `UploadCore.OutcomeIgnoresPageCount` | src/app/api/uploadthing/core.ts:52 | The page count does not affect the outcome. |
| `UploadCore.SetStatusOfLast` | src/app/api/uploadthing/core.ts:70-86 | Updating the status of the new row changes that row alone. |
| `UploadCore.OnUploadComplete` | src/app/api/uploadthing/core.ts:27-88 | One row is created with the upload's key, name and url and the metadata's user. Its status is written as PROCESSING and then as SUCCESS or FAILED, and no other row changes. |
| `PdfRenderer.PrevTarget` | src/components/PdfRenderer.tsx:102 | One page back when that stays above 1, otherwise exactly page 1. |
| `PdfRenderer.NextTarget` | src/components/PdfRenderer.tsx:135-137 | One page on when that fits under a known total, otherwise exactly the total. With no total the result is one more. |
| `PdfRenderer.PageInputValidRange` | src/components/PdfRenderer.tsx:55-62 | A text is accepted exactly when it reads as a number in (0, total]. So every page 1..total, as `String` writes it, is accepted. Nothing is accepted without a total. |
| `PdfRenderer.HalfPageAccepted` | src/components/PdfRenderer.tsx:55-62 | With any document open, "0.5" is accepted and reads as 0.5: a page below 1 passes the check. |
| `PdfRenderer.PrevFieldBelowPage` | src/components/PdfRenderer.tsx:96-105 | From a page strictly between 1 and 2, the previous-page click lands on page 1, while the field it writes reads as a smaller number. |
| `PdfRenderer.PdfViewer.constructor` | src/components/PdfRenderer.tsx:45-49 | Page 1, zoom 100%, no rotation, nothing rendered, field "1". |
| `PdfRenderer.PdfViewer.ShownScaleIsRendered` | src/components/PdfRenderer.tsx:205-226 | The page the reader sees is always at the zoom that last finished rendering. |
| `PdfRenderer.PdfViewer.LoadSuccess` | src/components/PdfRenderer.tsx:194-196 | The total page count becomes known. |
| `PdfRenderer.PdfViewer.LoadError` | src/components/PdfRenderer.tsx:197-202 | A load error raises a toast. |
| `PdfRenderer.PdfViewer.TypePage` | src/components/PdfRenderer.tsx:111-113 | The field takes the typed text. |
| `PdfRenderer.PdfViewer.PrevPage` | src/components/PdfRenderer.tsx:96-105 | Clickable above page 1. The page follows `PrevTarget` and stays positive and within the total. The field reads as the old page minus one. That is the new page when the old page was whole or above 2. |
| `PdfRenderer.PdfViewer.NextPage` | src/components/PdfRenderer.tsx:129-139 | Clickable with a known total when the page is not that total. The page follows `NextTarget` and stays within the total. The field reads as the old page plus one. That is the new page when the step fits, which it always does from a whole page. |
| `PdfRenderer.PdfViewer.SubmitPage` | src/components/PdfRenderer.tsx:84-87 | A valid field becomes the page, whole or not, and the field keeps its text. An invalid one only raises the error. The page stays in (0, total]. |
| `PdfRenderer.PdfViewer.Rotate` | src/components/PdfRenderer.tsx:173 | Plus 90 degrees, with no reduction modulo 360. |
| `PdfRenderer.PdfViewer.SelectZoom` | src/components/PdfRenderer.tsx:155-166 | The zoom becomes a menu level, and loading holds until that level is rendered. |
| `PdfRenderer.PdfViewer.RenderSuccess` | src/components/PdfRenderer.tsx:226 | The rendered zoom becomes the chosen one, which ends loading. |
| `UploadButton.TickProgress` | src/components/UploadButton.tsx:45-52 | At 95 or more the value is kept and the interval stops; below that, 5 is added. |
| `UploadButton.TicksFromZero` | src/components/UploadButton.tsx:38-53 | From the reset to 0, k ticks give min(5k, 95), so the simulation never passes 95. |
| `UploadButton.TickKeepsShape` | src/components/UploadButton.tsx:44-52 | Progress stays a multiple of 5 up to 95, or exactly 100. |
| `UploadButton.ResponseKey` | src/components/UploadButton.tsx:72-92 | Polling gets a key exactly when there is a response whose first file has a non-empty key. |
| `UploadButton.UploadDropzone.constructor` | src/components/UploadButton.tsx:17-18 | Not uploading, progress 0. |
| `UploadButton.UploadDropzone.OnDropStart` | src/components/UploadButton.tsx:60-63 | Uploading is on, progress is reset to 0, and a new interval starts. |
| `UploadButton.UploadDropzone.Tick` | src/components/UploadButton.tsx:44-53 | One firing: progress follows the tick rule, and the interval clears itself at 95. |
| `UploadButton.UploadDropzone.OnUploadResolved` | src/components/UploadButton.tsx:68-97 | With no response or no key: a toast only, and the interval is not cleared. Otherwise the interval is cleared, progress is set to 100, and polling starts with the key. |
| `UploadButton.UploadDropzone.OnPollSuccess` | src/components/UploadButton.tsx:27-33 | The route goes to `/dashboard/<file id>`. |
| `UploadButton.UploadDialog.OnOpenChange` | src/components/UploadButton.tsx:161-167 | The dialog is open afterwards only if it was open and `v` is true: the callback only ever closes it. |
| `UploadButton.UploadDialog.OnTriggerClick` | src/components/UploadButton.tsx:169 | The trigger opens the dialog. |
| `Dashboard.SortByCreatedAt` | src/components/Dashboard.tsx:32-37 | In place: afterwards ascending in creation time and a permutation of the fetched array. |
| `Dashboard.Links` | src/components/Dashboard.tsx:38-43 | One link per file, in the sorted order. |
| `Dashboard.LinksTargetTheirFiles` | src/components/Dashboard.tsx:40-43 | Each item is keyed by its file id and links to `/dashboard/<id>`. |
| `Dashboard.Render` | src/components/Dashboard.tsx:26-81 | A non-empty list is sorted and listed. Otherwise a skeleton while loading, else the empty state. |
| `AuthCallback.OriginParam` | src/app/auth-callback/page.tsx:14 | The first value under `origin`, or nothing exactly when there is none. |
| `AuthCallback.SuccessRoute` | src/app/auth-callback/page.tsx:18-23 | No navigation without success. Otherwise `/<origin>` for a non-empty origin, else `/dashboard`. |
| `AuthCallback.ErrorRoute` | src/app/auth-callback/page.tsx:25-30 | The error handler routes to sign-in exactly for UNAUTHORIZED; any other code leaves the route alone. |
| `AuthCallback.RoutesOfRouterOutcomes` | src/app/auth-callback/page.tsx:18-29 | Handed the router's errors, the error handler routes only UNAUTHORIZED to `/sign-in`, not NOT_FOUND or INTERNAL_SERVER_ERROR. Success with any non-empty `origin` lands on `/<origin>`, and without one on `/dashboard`. |

## Left out

- Cursor pagination, `getFileMessages` and `getFileUploadStatus`: the procedures that serve them are not part of this model. The cached pages and the status are inputs.
- External services are not modelled; they are inputs or steps that may fail:
  - OpenAI completion and embeddings.
  - Pinecone similarity search and indexing.
  - The PDF loader and the `fetch` of the uploaded file.
  - The identity session.
- The outcome of the embeddings, similarity-search and completion calls reaches `MessageRoute.Post` as a parameter: the passages found, or a throw. The completion text arrives through `MessageRoute.OnCompletion`. Each pipeline step is one `PipelineStep` that may throw.
- The prompt's template text is a string layout sent to a foreign API; only the role mapping and the window are modelled.
- Per-chunk UTF-8 decoding: chunks are already-decoded strings, and a multi-byte character split across chunks is not modelled.
- React Query internals are not modelled:
  - `cancel` and `invalidate` are steps in the trace with no effect of their own.
  - Refetch scheduling, `keepPreviousData`, and a refetch landing between two cache writes.
  - Reads of the rollback entry under `{fileId}`.
- Retries: `retry: true` on the sign-in sync and on the file poll means failed calls are retried with a 500 ms delay. Only their success and error handlers are modelled.
- AuthCallback.ErrorRoute: models the error handler only. With `retry: true` the query retries a failing sync without limit, so the handler does not run and an UNAUTHORIZED caller stays on the spinner instead of reaching `/sign-in`. `AuthCallback.RoutesOfRouterOutcomes` is about the handler in the same way.
- Time and ids: `new Date()`, `crypto.randomUUID()` and generated database ids are parameters. Intervals are ids, and each firing is an explicit `Tick` call.
- ChatContext.ChatProvider.OnSuccess: one clock value stands for `new Date()` in every chunk's update. Only the read that creates the placeholder uses it, so later reads' clocks do not matter (`ChatUpdates.UpsertOnWithPlaceholder`).
- Zoom levels are integer percentages, not the floating-point scales 1, 1.5, 2 and 2.5.
- PdfRenderer.PageInputValidRange: `Number(s)` is modelled for "", decimal spellings (digits with at most one point, and a digit on at least one side) and a minus sign before one. JavaScript also reads other spellings, such as " 7", "+7", "1e1" or "0x7". The model counts these as NaN, so its validator rejects them where the component accepts them.
- Page numbers are exact decimals. JavaScript's binary floating point is not modelled: `2.3 - 1` prints as `1.2999999999999998` there, but as `1.3` in `PdfRenderer.PdfViewer.PrevPage`.
- Database.SortByCreated: the order of messages with the same creation time is not promised. The model keeps table order among them, whereas the database leaves it unspecified.
- Dashboard.SortByCreatedAt: the dates are milliseconds since the epoch, standing for `new Date(createdAt).getTime()`. Stability among equal times is not stated.
- Rendering is not modelled: markup, the PDF canvas and its worker, toast styling, and the `Message` component.
- Concurrency is not modelled:
  - Two sends in flight at once.
  - A file deleted while its ingestion runs: the final status update would then reject.
- The auth middleware of the private procedures is the precondition `userId != ""`.

