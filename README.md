# Doodle Museum, modelled in Dafny

Doodle Museum is a small web app. Visitors draw on a 320×320 canvas that has undo and redo. They
save drawings into a gallery and vote for them, and a signed-in artist has a profile page with
vote statistics and badges. A language-model "art critic" can name a drawing and critique it.
Its server routes sit in front of a hosted database and a storage service; four of them are modelled here.

This project models the logic of that app and proves its properties:

- **Drawing canvas** (`drawing_canvas.dfy`): the drawing surface as a class.
  - Its pixel frame is an `array` painted in place.
  - A snapshot history with a cursor is committed at the end of every stroke and on clear.
  - The handlers are proved against a value-level `History` with `Commit`, `Undo` and `Redo`.
- **Gallery list** (`artworks.dfy`): the list logic both gallery pages share.
  - Seeding from storage, building a new record, and prepending it.
  - The vote increment, and the in-place stable sort by votes (an insertion sort on an array). It is proved equal to a functional sort that is sorted, a permutation and stable.
- **Pages**: the signed-in home page (`user_home.dfy`), the landing page (`app_page.dfy`) and the profile page (`profile.dfy`).
- **Forms**: the sign-up and log-in forms (`signup_modal.dfy`, `login_modal.dfy`).
  - This includes the loose email pattern `\S+@\S+\.\S+`. A ghost existential states it, an executable scanner decides it, and the two are proved equal.
- **Art critic** (`gemini_service.dfy`): its fallbacks, the payload it takes from the data URL, and its cleanup of the model's answer.
- **Routes**: the two read routes (`read_routes.dfy`) and the two write routes (`save_doodle.dfy`, `update_profile.dfy`).
  - Every backend answer is a parameter, treated as an oracle.
  - Each handler returns its HTTP reply together with the log of backend calls it made, in order. Properties such as "no insert after a failed upload" are statements about that log.
- **Shared pieces**:
  - `types.dfy` holds the record types;
  - `js_text.dfy` holds the JavaScript string built-ins used: `\s`, `\w`, `trim`, global `replace`, `indexOf` and number-to-decimal;
  - `rounding.dfy` holds `Math.round` of a mean;
  - `backend.dfy` holds replies, the call log, table rows and the storage path scheme.

Where the code and its description differ, the model follows the code:

- The canvas binds mouse-up, mouse-leave and touch-end to `stopDrawing`. It has no touch-cancel handler, so a cancelled touch leaves the stroke open.
- The two read routes read different vote columns: `votes` in get-user-data, and `votes_count` in get-all-paintings.
- get-all-paintings names the artist only when the join comes back as a non-empty array. An object-shaped join gives "Unknown Artist".
- A press does not leave a dot. `startDrawing` calls `draw`, whose `lineTo` runs on an empty path (the path is empty at mount and after every `beginPath` that ends a stroke). On an empty path `lineTo` only opens a one-point subpath, and `stroke()` paints nothing for it. So a tap with no movement commits a snapshot equal to the frame before it.

## Model

| member | source | states |
|---|---|---|
| Types.OrUndefined | app/home/page.tsx:120 | `critique \|\| undefined`: the field is absent exactly when the critique is empty, and otherwise carries it |
| Rounding.MathRound | app/profile/page.tsx:66 | `Math.round(t / n)` for n > 0 is the integer r with n(2r−1) ≤ 2t < n(2r+1), which is half-up rounding of the exact mean |
| Rounding.MathRoundUnique | app/profile/page.tsx:66 | any integer within half a unit of t/n, with halves going up, is the rounded value |
| Rounding.RoundedMean | app/api/get-user-data/route.ts:54 | 0 when there are no items; otherwise the rounded mean, bounded as above |
| Rounding.RoundedMeanAtMostTotal | app/api/get-user-data/route.ts:52-54 | with a non-negative total, the average lies between 0 and the total |
| JsText.IndexOf | app/services/geminiService.ts:21 | the first position of the character, with no earlier occurrence; the length when the character is absent |
| JsText.IndexOfAfter | app/services/geminiService.ts:21 | in `h + c + t`, where `h` lacks `c`, the first `c` is at `\|h\|` |
| JsText.Trim | app/services/geminiService.ts:46 | the result neither starts nor ends with whitespace; it is a slice of the input, and only whitespace is cut on each side |
| JsText.RemoveAll | app/services/geminiService.ts:46 | a global literal `replace(…, '')` never lengthens the text |
| JsText.RemoveAllKeepsPrefix | app/services/geminiService.ts:46 | a prefix that cannot start the pattern is kept unchanged in front of the rest's result |
| JsText.RemoveAllIdentity | app/services/geminiService.ts:46 | a text without the pattern's first character is unchanged |
| JsText.Decimal | app/home/page.tsx:116 | `n.toString()` is a non-empty string of digits, and numbers of 10 and up have at least two digits |
| JsText.DecimalInjective | app/api/save-doodle/route.ts:35-36 | different numbers give different decimal strings |
| Canvas.Filled | app/components/DrawingCanvas.tsx:43-44 | a uniform frame of the requested size |
| Canvas.Paint | app/components/DrawingCanvas.tsx:111-112 | a stroke keeps the frame size |
| Canvas.Stroked | app/components/DrawingCanvas.tsx:111-114 | `lineTo` then `stroke()`: with a current point the segment to the new point is painted in the brush colour; on an empty path the frame is unchanged |
| Canvas.EraserRestoresBackground | app/components/DrawingCanvas.tsx:108-109 | whatever colour is selected, a pixel the eraser covers becomes the white background |
| Canvas.Mounted | app/components/DrawingCanvas.tsx:42-51 | after mount the history is exactly one snapshot, the blank frame, with the cursor on it and nothing to redo |
| Canvas.Commit | app/components/DrawingCanvas.tsx:94-97 | the history is cut after the cursor and the new frame appended. Entries up to the cursor are kept, the cursor advances onto the new frame, and the redo branch is gone |
| Canvas.Undo | app/components/DrawingCanvas.tsx:124-134 | above 0 the cursor steps back and shows the previous snapshot; at 0 nothing changes; the history is never modified |
| Canvas.Redo | app/components/DrawingCanvas.tsx:136-146 | below the last entry the cursor steps forward and shows that snapshot; otherwise nothing changes |
| Canvas.UndoThenRedo | app/components/DrawingCanvas.tsx:124-146 | undo followed by redo restores the same history and cursor |
| Canvas.RedoThenUndo | app/components/DrawingCanvas.tsx:124-146 | redo followed by undo restores the same history and cursor |
| Canvas.CommitAll | app/components/DrawingCanvas.tsx:94-97 | any sequence of commits keeps the cursor a valid index |
| Canvas.StrokesAfterMount | app/components/DrawingCanvas.tsx:42-51 | after mount and N strokes, the history is the blank frame followed by the N stroke frames, and the cursor is N |
| Canvas.UndoTimes | app/components/DrawingCanvas.tsx:124-134 | any number of undos keeps the cursor valid |
| Canvas.UndoTimesMovesCursor | app/components/DrawingCanvas.tsx:124-134 | k undos (k ≤ cursor) move the cursor back by k and leave the snapshots alone |
| Canvas.UndoThenDrawDropsRedoBranch | app/components/DrawingCanvas.tsx:94-97 | undoing k times from the newest entry and then drawing drops exactly the k newest snapshots, and leaves nothing to redo |
| Canvas.TwoStrokesThenUndo | app/components/DrawingCanvas.tsx:94-97 | mount, two strokes, undo: three snapshots are kept and the first stroke is shown |
| Canvas.DrawingCanvas.constructor | app/components/DrawingCanvas.tsx:35-52 | the frame is filled white, the history is that one blank frame at cursor 0, and the pencil with the first colour is selected |
| Canvas.DrawingCanvas.FillRect | app/components/DrawingCanvas.tsx:154-155 | every pixel of the frame gets the fill colour |
| Canvas.DrawingCanvas.PutImageData | app/components/DrawingCanvas.tsx:130 | the frame becomes the snapshot |
| Canvas.DrawingCanvas.StrokeCells | app/components/DrawingCanvas.tsx:111-112 | the covered in-frame pixels get the ink, and the rest stay as they were |
| Canvas.DrawingCanvas.Draw | app/components/DrawingCanvas.tsx:102-115 | one dab with the tool's brush from the path's current point (nothing when the path is empty); the path then starts at the new point, and the history and tools are unchanged |
| Canvas.DrawingCanvas.StartDrawing | app/components/DrawingCanvas.tsx:75-80 | the stroke becomes active and `draw` runs at the pressed point; between strokes the path is empty, so the frame is unchanged and only the path's current point is set; the history is unchanged |
| Canvas.DrawingCanvas.HandleMouseMove | app/components/DrawingCanvas.tsx:117-122 | without an active stroke nothing changes; with one, the segment from the previous point to the new one is painted |
| Canvas.DrawingCanvas.StopDrawing | app/components/DrawingCanvas.tsx:82-100 | a no-op without an active stroke; otherwise the stroke ends and the current frame is committed |
| Canvas.DrawingCanvas.HandleUndo | app/components/DrawingCanvas.tsx:124-134 | the state becomes `Undo` of the old state, and the frame is repainted from the snapshot under the new cursor |
| Canvas.DrawingCanvas.HandleRedo | app/components/DrawingCanvas.tsx:136-146 | the state becomes `Redo` of the old state, and the frame is repainted from the snapshot under the new cursor |
| Canvas.DrawingCanvas.ClearCanvas | app/components/DrawingCanvas.tsx:148-163 | the whole 320×320 frame becomes white, and that frame is committed |
| Canvas.DrawingCanvas.HandleColorSelect | app/components/DrawingCanvas.tsx:165-168 | picking a colour also selects the pencil |
| Canvas.DrawingCanvas.SetTool | app/components/DrawingCanvas.tsx:189-198 | the tool buttons change only the tool |
| Canvas.DrawingCanvas.Handle | app/components/DrawingCanvas.tsx:254-260 | mouse-up, mouse-leave and touch-end always close the stroke, committing only an active one, and leave the pixels alone. A press starts a stroke and paints as `startDrawing` does. Moves never start or end one and paint as `handleMouseMove` does. The tool and colour never change |
| Canvas.UndoThenRedoRestoresFrame | app/components/DrawingCanvas.tsx:124-146 | between strokes, undo then redo leaves the history, the cursor and the pixels as they were |
| Canvas.TapCommitsOneSnapshot | app/components/DrawingCanvas.tsx:75-100 | a press and release with no movement still commits exactly one new snapshot after the cursor, and that snapshot is the unchanged frame |
| Artworks.Loaded | app/home/page.tsx:50-56 | an empty storage key seeds the one "Invisible Dot" record; otherwise the stored list is used as is |
| Artworks.NewPainting | app/home/page.tsx:115-123 | a saved record has the time-based id and 0 votes; its critique is absent exactly when empty |
| Artworks.Prepend | app/home/page.tsx:65-69 | the new record comes first and the old list follows unchanged: one more element, the same multiset plus the record |
| Artworks.IncrementVotes | app/home/page.tsx:138-140 | exactly the records with the voted id gain one vote; every other field and record is unchanged |
| Artworks.InsertByVotesPermutes | app/home/page.tsx:141 | inserting adds exactly the element to the multiset |
| Artworks.SortByVotesPermutes | app/home/page.tsx:141 | the sort is a permutation |
| Artworks.InsertKeepsSorted | app/home/page.tsx:141 | inserting into a list sorted by votes (most first) keeps it sorted |
| Artworks.SortByVotesSorted | app/home/page.tsx:141 | the sort's result is sorted by votes, most first |
| Artworks.InsertByVotesStable | app/home/page.tsx:141 | among records with equal votes, the inserted one comes after the existing ones |
| Artworks.SortByVotesStable | app/home/page.tsx:141 | the sort is stable: records with equal votes keep their relative order |
| Artworks.InsertKeepsIds | app/home/page.tsx:141 | inserting adds exactly the element's id to the multiset of ids |
| Artworks.SortKeepsIds | app/page.tsx:100 | the sort keeps the multiset of ids |
| Artworks.InsertLandsAt | app/home/page.tsx:141 | the insertion lands right after the last record with at least as many votes, when every record after that point has fewer |
| Artworks.InsertInPlace | app/home/page.tsx:141 | the in-place step leaves the prefix as the functional insert of its last element, and the tail untouched |
| Artworks.SortByVotesInPlace | app/home/page.tsx:141 | the in-place `sort` leaves the array equal to the functional stable sort of its old contents |
| Artworks.Vote | app/home/page.tsx:137-144 | the list after a vote is sorted, is a permutation of the incremented list, keeps the ids and the length, and equals the stable sort of the incremented list |
| UserHomePage.ClientView | app/home/page.tsx:106-112 | an exception is `Threw`; a 2xx status is read as success, anything else as a refusal |
| UserHomePage.SaveRoundTrip | app/home/page.tsx:95-125 | end to end with the save route: on success the page records the URL the route inserted; on a refusal it alerts with the route's message ("Internal server error" when the image cannot be read or a backend call throws), and a failed upload writes nothing |
| UserHomePage.UserHome.constructor | app/home/page.tsx:50-63 | after mount the list is the stored or seeded one, and the stored profile replaces the default "Artist" |
| UserHomePage.UserHome.SavePaintingToStorage | app/home/page.tsx:65-69 | the list becomes the record prepended to the old list, and that list is written to storage |
| UserHomePage.UserHome.HandleSaveRequest | app/home/page.tsx:71-76 | the image is kept, the title and critique are cleared, and the dialog opens |
| UserHomePage.UserHome.HandleAIAnalyze | app/home/page.tsx:78-86 | the critic's title and critique fill the dialog, which opens with the image |
| UserHomePage.UserHome.ConfirmSave | app/home/page.tsx:88-135 | a missing image or title alerts and changes nothing. A refused or failed request alerts and leaves the list. A success prepends a 0-vote record with the returned URL and the user's name, closes the dialog and shows the gallery |
| UserHomePage.UserHome.HandleVote | app/home/page.tsx:137-144 | the list becomes the sorted incremented list, sorted and a permutation of it; the same list is stored; the view, user, dialog and form fields are unchanged |
| AppPage.App.constructor | app/page.tsx:41-49 | after mount the list is the stored list, or the seed list when storage is empty |
| AppPage.App.SavePaintingToStorage | app/page.tsx:51-55 | the record is prepended to the list |
| AppPage.App.HandleSaveRequest | app/page.tsx:57-62 | the image is kept, the title and critique are cleared, the typed name is kept, and the dialog opens |
| AppPage.App.HandleAIAnalyze | app/page.tsx:64-72 | the critic's answer fills the dialog, which opens |
| AppPage.App.ConfirmSave | app/page.tsx:74-93 | with image, name and title all present, a 0-vote record with the current image and the typed name is prepended, the dialog closes and the gallery shows; otherwise it alerts and nothing changes |
| AppPage.App.HandleVote | app/page.tsx:95-104 | after a vote the list is sorted by votes, most first, and keeps the same multiset of ids; the view, dialog and form fields are unchanged |
| AppPage.SaveThenVote | app/page.tsx:74-104 | saving a drawing and voting for it adds exactly the new id to the list and leaves it sorted |
| Profile.Loaded | app/profile/page.tsx:31-52 | the stored profile replaces the default one. The stored list is shown, and there is no seeding: an empty key shows no paintings |
| Profile.UserPaintings | app/profile/page.tsx:62 | a painting is kept iff it is in the list and by the current artist |
| Profile.UserPaintingsAppend | app/profile/page.tsx:62 | the filter preserves order: filtering a concatenation concatenates the filtered parts |
| Profile.UserPaintingsOfOwnList | app/profile/page.tsx:62 | a list entirely by the artist passes the filter unchanged |
| Profile.TotalVotes | app/profile/page.tsx:65 | with non-negative votes the sum is non-negative |
| Profile.TotalVotesAppend | app/profile/page.tsx:65 | the sum over a concatenation is the sum of the sums |
| Profile.TotalVotesAtLeastEach | app/profile/page.tsx:65 | with non-negative votes the total is at least any one painting's votes |
| Profile.AvgVotes | app/profile/page.tsx:66 | 0 with no paintings; otherwise the half-up rounded mean of the artist's votes |
| Profile.Badges | app/profile/page.tsx:69-98 | the four badges in order. first_doodle unlocks iff the artist has a painting; trending iff one has ≥ 10 votes; gallery_builder iff there are ≥ 5; star iff the total is ≥ 50. Each of the other three implies first_doodle |
| Profile.TrendingCountsTowardsStar | app/profile/page.tsx:82-96 | with non-negative votes, a trending artist has a total of at least 10 |
| Profile.SaveProfile | app/profile/page.tsx:54-59 | the name and avatar are overwritten, the bio and joined date kept, and editing ends |
| SignupForm.FindDot | app/components/SignupModal.tsx:37 | finds a `.` that ends a non-whitespace run and is followed by a non-whitespace character, or proves that none exists |
| SignupForm.EmailFrom | app/components/SignupModal.tsx:37 | true iff some `@` from the given position on starts a match |
| SignupForm.MatchesEmailIsLooseEmail | app/components/SignupModal.tsx:37 | the scanner accepts exactly the strings holding `u@v.w`, where u, v and w are non-empty non-whitespace runs, anywhere in the string |
| SignupForm.EmailExamples | app/components/SignupModal.tsx:37 | the pattern is unanchored ("see me@home.now" passes) and needs a dot after the `@` ("ada@doodle" fails) |
| SignupForm.Validate | app/components/SignupModal.tsx:18-40 | the checks in order: empty fields, then length under 6, then mismatch, then the email pattern. Passing all of them is equivalent to a valid email plus a matching password of 6 or more characters |
| SignupForm.SignupModal.constructor | app/components/SignupModal.tsx:12-16 | the form starts empty |
| SignupForm.SignupModal.HandleSignup | app/components/SignupModal.tsx:18-50 | the first failing check's message is shown, with no callback and the fields kept; on success the email is reported, the fields are cleared and the dialog closes |
| SignupForm.SignupModal.HandleClose | app/components/SignupModal.tsx:52-58 | the error and all three fields are cleared, and the dialog closes |
| LoginForm.Validate | app/components/LoginModal.tsx:20-23 | the form passes iff both fields are non-empty; otherwise 'All fields are required.' |
| LoginForm.LoginModal.constructor | app/components/LoginModal.tsx:12-15 | the form starts empty |
| LoginForm.LoginModal.HandleLogin | app/components/LoginModal.tsx:17-31 | a missing field shows the message and changes nothing else; otherwise the email is reported, the fields are cleared and the dialog closes |
| LoginForm.LoginModal.HandleClose | app/components/LoginModal.tsx:33-38 | the error, email and password are reset, and the dialog closes |
| CritiqueService.SecondField | app/services/geminiService.ts:21 | `split(',')[1]` is absent iff there is no comma; otherwise it is a comma-free, shorter piece |
| CritiqueService.DataUrlPayload | app/services/geminiService.ts:20-21 | for `header,payload` with a comma-free payload, the extracted field is exactly the payload |
| CritiqueService.CleanResponse | app/services/geminiService.ts:46 | the cleaned answer contains no triple backtick |
| CritiqueService.RemoveAllLeavesNoFence | app/services/geminiService.ts:46 | removing every "```" in one scan cannot create a new one from the backticks left behind |
| CritiqueService.FencedAnswer | app/services/geminiService.ts:46 | a ```json-fenced answer whose body has no backticks cleans up to the trimmed body |
| CritiqueService.AnalyzeDoodle | app/services/geminiService.ts:10-57 | an empty key gives "Untitled Mystery" without calling the model. Otherwise the model gets the payload after the comma; a throw or an unparsable answer gives "The Glitched Canvas", and a parsed answer is returned as is |
| Backend.OrZero | app/api/get-user-data/route.ts:45 | `n \|\| 0` is the value, or 0 when missing |
| Backend.StoragePathUnique | app/api/save-doodle/route.ts:35-36 | for user ids without a slash, equal storage paths mean the same user and the same millisecond |
| ReadRoutes.ArtistName | app/api/get-user-data/route.ts:31-37 | the profile's artist name when present and non-empty; "Unknown Artist" when the lookup fails or yields nothing |
| ReadRoutes.OwnPainting | app/api/get-user-data/route.ts:40-49 | each field of the client record comes from its column, with a missing `votes` read as 0 |
| ReadRoutes.OwnPaintings | app/api/get-user-data/route.ts:40-49 | one record per row, in the query's newest-first order |
| ReadRoutes.SumVotes | app/api/get-user-data/route.ts:53 | with non-negative votes the sum is non-negative |
| ReadRoutes.UserDataOf | app/api/get-user-data/route.ts:40-63 | the paintings are the mapped rows; totalArtworks is the row count, totalVotes the sum, and avgVotes 0 or the rounded mean |
| ReadRoutes.GetUserData | app/api/get-user-data/route.ts:6-64 | no user gives 401 before any query. A failed doodle query gives 500 "Failed to fetch doodles". Otherwise the doodle query and the profile lookup are made and 200 carries the mapped rows and stats |
| ReadRoutes.SumVotesIsTotalVotes | app/api/get-user-data/route.ts:53 | the route's vote sum equals the profile page's sum over the returned records |
| ReadRoutes.StatsMatchProfilePage | app/api/get-user-data/route.ts:52-54 | the route's count, total and average equal the profile page's statistics over the returned paintings |
| ReadRoutes.JoinedArtist | app/api/get-all-paintings/route.ts:43 | the first joined artist name only when the join is a non-empty array; "Unknown Artist" otherwise |
| ReadRoutes.GalleryPainting | app/api/get-all-paintings/route.ts:39-47 | each field comes from its column: `votes_count` (0 when missing) and no critique |
| ReadRoutes.GalleryPaintings | app/api/get-all-paintings/route.ts:39-47 | one record per row, in order |
| ReadRoutes.GetAllPaintings | app/api/get-all-paintings/route.ts:6-49 | one select. A query error, and only that, gives 500 "Failed to fetch doodles" with no paintings; otherwise 200 with the mapped rows |
| ReadRoutes.ReadRoutesAgree | app/api/get-all-paintings/route.ts:39-47 | whatever the profile lookup returned, the two routes produce the same records exactly when every row has equal vote columns, no critique, and a joined name equal to the looked-up artist |
| ReadRoutes.RowMappingsAgree | app/api/get-all-paintings/route.ts:39-47 | one row maps alike in both routes exactly when its vote columns agree, it has no critique and the gallery's artist is the looked-up one |
| ReadRoutes.JoinNamesArtist | app/api/get-all-paintings/route.ts:43 | for a real artist name the gallery shows it exactly when the join is a non-empty array whose first profile has it; an object-shaped or empty join matches only the placeholder name |
| SaveDoodleRoute.SaveDoodle | app/api/save-doodle/route.ts:7-74 | checks in order: 401 with no user, then 400 when the title or image is missing, then 500 when the image cannot be read. Then one upload to `artworks` at `paintings/<id>/<ts>.png`. A failed upload gives 500 with no insert, and a failed insert gives 500. A throw from either call gives the catch-all 500 "Internal server error". Success returns the URL that was inserted |
| SaveDoodleRoute.SavesDoNotCollide | app/api/save-doodle/route.ts:35-36 | saves by different users, or in different milliseconds, never target the same storage object |
| UpdateProfileRoute.WordRunEnd | app/api/update-profile/route.ts:34 | the end of the longest run of `\w` characters from a position |
| UpdateProfileRoute.StripImageHeader | app/api/update-profile/route.ts:34 | the result is either the input unchanged, or the input minus a leading `data:image/<word>;base64,`; without such a header it is unchanged |
| UpdateProfileRoute.StripImageHeaderOf | app/api/update-profile/route.ts:34 | the strip removes a well-formed header exactly and keeps the whole payload |
| UpdateProfileRoute.FinalAvatar | app/api/update-profile/route.ts:25-51 | a `data:image` avatar is replaced by the public URL of `avatars/<id>/<ts>.png`; any other value, absent and null included, is passed on unchanged |
| UpdateProfileRoute.SetColumn | app/api/update-profile/route.ts:57-61 | an absent member leaves its column as it was, `null` clears it, and a string is written |
| UpdateProfileRoute.AfterUpdate | app/api/update-profile/route.ts:55-62 | the row after the update has the new name, and the bio and avatar columns as `SetColumn` gives them |
| UpdateProfileRoute.NameOnlyKeepsColumns | app/api/update-profile/route.ts:55-62 | a body with only a name leaves the bio and avatar as they were; explicit nulls clear both |
| UpdateProfileRoute.UpdateProfile | app/api/update-profile/route.ts:5-82 | 401 with no user, 500 for a body that is not JSON, 400 when the name is absent, null or empty. A `data:image` avatar is stripped and uploaded first; a failed upload gives 500 with no update. The update sends the name and the bio and final avatar as given (absent, null or a string). A failed update gives 500, a throw from either call the catch-all 500, and success echoes the three fields |

## Left out

- Rasterisation of strokes is left out: `lineTo`/`stroke` with round caps and joins, anti-aliasing, and `getCoordinates`. This is floating-point browser geometry. The covered pixels of a segment come from a rasteriser function parameter, and ink is painted over them whole. A `lineTo` on an empty path paints nothing, as the canvas specifies.
- Image encoding and decoding are left out: PNG encoding in `toDataURL`, the export button, the blob conversion in save-doodle and `Buffer.from` base64 decoding. These are foreign library calls.
  - An uploaded image is modelled as the string it is made from.
  - Whether the blob conversion succeeds is a parameter.
- `localStorage` and `JSON.parse`/`stringify` are left out; they are I/O. Stored lists and profiles come in as optional values, and what is written goes out as return values. A stored value of another shape is not modelled.
- The hosted auth, database and storage services and the language model are left out; they are external services. Each answer is a parameter. `JSON.parse` of the critic's answer is a parameter that yields a response or nothing; the shape of what it parses is not checked.
- Clocks and locale are left out: `Date.now()`, `new Date(...).getTime()` and `toLocaleDateString`. Times are parameters.
- React scheduling is left out: batched state updates, stale closures, effects running after the first render, and the `isSaving`/`isAnalyzing` flags. Handlers run one at a time on the current state, and the mount effect runs in the constructor.
- Canvas.DrawingCanvas.Handle: events that arrive before the canvas or its context exists are not modelled; the source's `if (!canvas) return` guards are taken to pass.
- SignupForm.Validate: `password.length` counts UTF-16 code units, while the model counts characters. The two differ only for characters outside the Basic Multilingual Plane.
- UserHomePage.ClientView: a body field the reply lacks reads as the string "undefined", where the page would hold the value `undefined`.
- ReadRoutes.GetUserData and ReadRoutes.GetAllPaintings: the catch-all 500 for exceptions thrown inside the `try` is not modelled. The query answers are well-formed values.
- ReadRoutes.JoinedArtist: a joined profile whose `artist_name` is null is modelled as a string name.
- SaveDoodleRoute.SaveDoodle: a request body that is not form data is not modelled. `req.formData()` runs before the `try`, so such a request fails with the framework's default error instead of a JSON reply from the route.
- UpdateProfileRoute.UpdateProfile: a body whose `name` or `avatarUrl` is present but not a string is not modelled. A non-string `avatarUrl` makes `startsWith` throw into the catch-all 500 "Internal server error".
- The home page's `handleSaveProfile` is left out: the page never calls it. It would overwrite the stored profile with the object it is given, with no merge. `handleLogout` is left out too; it only navigates.
- The auth routes, the get-profile route and the presentation components are left out. They pass SDK results through to status codes or only render.

