# CloudNotes note store: a Dafny model

This project is a Dafny model of the core of CloudNotes, a notes web application. The backend keeps
each user's notes in one collection. The model covers its request handlers in two variants:

- the router the server mounts, `backend/routes/notes.js`;
- the controller beside it, `backend/controllers/noteController.js`, which the server does not mount.

It also covers the schema every saved note must satisfy, with its pre-save hook (`backend/models/Note.js`).
On the front end it covers the small string functions of the note editor pages: the tag text field and
the word, character and reading-time statistics.

Modules:

- **Wrappers, Sequences, Text, Json**: supporting modules.
  - `Option`.
  - Filter, distinct, a stable descending sort, `Take`/`Drop`.
  - JavaScript `trim`, ASCII lowercasing, UTF-8 and UTF-16 lengths, `split`, `join`.
  - JSON values with JavaScript truthiness and string coercion.
- **ObjectIds**: a MongoDB ObjectId as the number its 24 hex digits spell, with parsing and formatting.
- **NoteModel**:
  - the `Note` document;
  - the schema's validators, defaults and trimming setters;
  - the collection, a `Store` class with a field `docs: seq<Note>` (natural order) and a logical clock. `Save` validates, stamps `updatedAt` from the clock (the pre-save hook) and writes; `Delete` removes.
- **Queries**: the owner-scoped filters. Search is a regular expression. The engine is a parameter (`RegexEngine`): whether a pattern compiles, and whether it matches a text case-insensitively. The module also has both sort orders, MongoDB's `limit`, and lookup by id followed by the owner check.
- **Storage**: the UTF-8 size of a user's notes, made explicit in hundredths of a megabyte, and the 1024 MB gate.
- **Http, Requests**: the handler outcomes and their status codes, the request body, the title guard, and the resolution of `/:id` (id, then 404, then 403).
- **LiveRoutes**: every handler of the mounted router. Also the imperative `calculateStorage` loop and a two-toggle scenario.
- **NoteController**: every handler of the controller variant. It has pagination, tag normalisation, validation errors reported as 400, a search capped at 50, and statistics with a storage estimate and tag frequencies.
- **TagStrings, TextStats, NoteForm, CreateNotePage, EditNotePage**: the front end.
  - Parsing and joining tag strings, with the round trip.
  - Stripping `<...>` runs.
  - Counting words, reading time.
  - Submitting, clearing and templating on the create page.
  - Loading and submitting on the edit page.

State that the source changes in place is modelled imperatively:

- The collection is a class.
- The create, update, pin and delete handlers are methods that change it.
- `calculateStorage` is a method with nested loops.

The queries, the validation and the front-end string chains are functions.

Inputs the code does not control are parameters:

- the requester's id;
- the regular-expression engine;
- whether the storage query of `calculateStorage` throws;
- the clock, as the store's counter.

## Model

| member | source | states |
|---|---|---|
| NoteModel.ValidationErrors | backend/models/Note.js:9-30 | a save is refused exactly when the title is empty or over 200 code units, the content over 10000, some tag over 50, or the category outside the 12-value enum; each failing field is reported by its path |
| NoteModel.TagErrors | backend/models/Note.js:20-24 | no error exactly when every tag is at most 50 code units; every error names a tag position |
| NoteModel.TagErrorPositions | backend/models/Note.js:20-24 | position i is reported exactly when tag i is longer than 50 code units |
| Text.TrimAll | backend/models/Note.js:20-24 | the trimming setter of the tag array trims every element and keeps the length |
| NoteModel.CastTags | backend/models/Note.js:20-24 | a tag array casts to strings exactly when every element casts, element by element |
| NoteModel.NewNote | backend/models/Note.js:3-43 | a new document has the given id and owner, a trimmed title and trimmed tags (one per given tag), content defaulting to '' and category to 'general', pinned false, and both times equal to the clock reading |
| NoteModel.NewNoteTitleRequired | backend/models/Note.js:9-14 | the title check fails on a new note exactly when the given title is empty or all white space, or is longer than 200 code units after trimming |
| NoteModel.AssignTitle | backend/models/Note.js:9-14 | the stored title is the trimmed value and has no white space at either end; no other field changes |
| NoteModel.AssignTitleSettles | backend/models/Note.js:9-14 | assigning a note its own stored title again leaves the note unchanged |
| NoteModel.AssignTags | backend/models/Note.js:20-24 | one stored tag per given tag, each the trimmed value with no white space at either end; no other field changes |
| NoteModel.AssignTagsSettles | backend/models/Note.js:20-24 | assigning a note its own stored tags again leaves the note unchanged |
| NoteModel.IndexOf | backend/routes/notes.js:70 | `findById` finds a position holding the id, and reports absence exactly when no stored note has it |
| NoteModel.IndexOfUnique | backend/routes/notes.js:70 | with unique ids the note found is the only one with that id |
| NoteModel.Upsert | backend/routes/notes.js:118 | a save replaces the stored note with the same id in place, or appends a new one |
| NoteModel.UpsertUnique | backend/routes/notes.js:145 | saving keeps ids unique |
| NoteModel.UpsertStored | backend/models/Note.js:45-48 | after a save of a validated note stamped at the clock, every note in the collection has passed validation and has `createdAt <= updatedAt <=` the clock |
| NoteModel.Remove | backend/routes/notes.js:186 | `findByIdAndDelete` removes the note with the id and keeps the order of the others |
| NoteModel.RemoveGone | backend/routes/notes.js:186 | after a delete the id is absent, ids stay unique, and exactly the other notes remain |
| NoteModel.FreshId | backend/routes/notes.js:110-118 | an inserted note gets an id that no stored note has |
| NoteModel.Store.Save | backend/models/Note.js:45-48 | validation comes first; a failing note changes nothing; a passing one is stored with `updatedAt` set to the advanced clock, so `createdAt <= updatedAt` holds for every stored note |
| NoteModel.Store.Delete | backend/routes/notes.js:186 | the store loses exactly the note with the key; the clock is unchanged |
| ObjectIds.ParseObjectId | backend/controllers/noteController.js:55 | an id is accepted exactly when it is 24 hex digits |
| ObjectIds.ParseFormatRoundTrip | backend/controllers/noteController.js:55 | formatting an id and parsing it back gives the same id |
| Queries.Find | backend/routes/notes.js:55 | the query returns the stored notes that match the filter, each as often as it is stored, and nothing else |
| Queries.OwnerNotes | backend/routes/notes.js:14 | `find({ owner })` returns each of the owner's notes as often as it is stored, and nothing else |
| Queries.FindWithinOwner | backend/controllers/noteController.js:16 | every note a listing query returns belongs to the filter's owner |
| Queries.ListFilterMatches | backend/routes/notes.js:43-53 | a note passes the listing filter exactly when it is the requester's, is in the given category unless that is empty or 'all', has `pinned` equal to (value == 'true') when given, and matches a non-empty search in title, content or a tag |
| Queries.PinnedNotes | backend/routes/notes.js:222 | the pinned count counts each of the owner's pinned notes as often as it is stored, and nothing else; it is at most the owner's total |
| Queries.OwnerCategories | backend/routes/notes.js:223 | `distinct('category', { owner })`: no category twice, and a category is listed exactly when some note of the owner has it |
| Queries.ListingOrder | backend/routes/notes.js:56 | in the listing order no unpinned note comes before a pinned one, and within either group newer comes first |
| Queries.LimitedPrefix | backend/routes/notes.js:57 | `limit(k)` returns a prefix: everything when k is 0 or its absolute value reaches the count, otherwise the first |k| notes |
| Queries.Authorize | backend/routes/notes.js:70-77 | missing exactly when no stored note has the id; not-owner exactly when it exists and belongs to someone else |
| Queries.AuthorizeUnique | backend/routes/notes.js:70-77 | with unique ids, the result for a stored note depends only on its owner |
| Storage.RoundedHundredths | backend/routes/notes.js:29 | the usage in hundredths of a megabyte is 100·bytes/1048576 rounded to the nearest, halves up |
| Storage.ExceedsQuotaMeaning | backend/routes/notes.js:98-100 | the integer gate is the exact comparison usedMB + newBytes/1048576 > 1024 |
| Storage.TotalBytesAppend | backend/routes/notes.js:18-26 | the byte total of two note lists is the sum of their totals |
| Requests.CheckTitle | backend/routes/notes.js:92-94 | a falsy or blank title is refused, and a truthy non-string title makes `.trim()` throw |
| Requests.Resolve | backend/controllers/noteController.js:55-64 | a malformed id fails first; then 404 exactly when no note has the id; then 403 exactly when it is someone else's; access only for the owner |
| Requests.ResolveStored | backend/routes/notes.js:70-77 | a stored note's own id never gives 404: it gives access to its owner and 403 to anyone else |
| Requests.ResolveReplaced | backend/routes/notes.js:165-166 | a note saved in place, with the same id and owner, resolves as before |
| LiveRoutes.StorageReport | backend/routes/notes.js:11-35 | the reported usage is the owner's byte total rounded to hundredths, and 0 when the query throws |
| LiveRoutes.StorageScopedToOwner | backend/routes/notes.js:14-26 | the total is the sum, over the store, of the sizes of the owner's notes only |
| LiveRoutes.StorageIgnoresOthers | backend/routes/notes.js:14 | another owner's note leaves a user's usage unchanged |
| LiveRoutes.QuotaPermissiveOnFailure | backend/routes/notes.js:31-34 | when the storage query throws, the gate admits every note of at most 1 GiB |
| LiveRoutes.CalculateStorage | backend/routes/notes.js:11-35 | the nested accumulation loop computes exactly the storage report |
| LiveRoutes.ListNotes | backend/routes/notes.js:38-65 | listing returns only the requester's matching notes, pinned first and then newest, the top ones of all matches; with limit 0 every match exactly once per stored copy, otherwise min(limit, matches) of them (default 8) and no note more often than stored; a pattern that does not compile is a 500 |
| LiveRoutes.GetNote | backend/routes/notes.js:68-84 | the note is returned only to its owner; absent gives 404 before 403; a malformed id is a 500 |
| LiveRoutes.LiveCreatePlan | backend/routes/notes.js:87-116 | blank title gives 400 before the quota. The quota gives 400 exactly when usage plus bytes(title+content) exceeds 1024 MB. Otherwise the note has the requester as owner, trimmed title and content, tags as given when an array, and the category lowercased with defaults |
| LiveRoutes.LiveBuild | backend/routes/notes.js:107-115 | the note built after the checks: owner and id as given, trimmed title and content, the array's tags through the trimming setter (none when not an array), the lowercased category, unpinned, both times the clock; a non-string content or category, or a tag that fails to cast, is a 500 |
| LiveRoutes.TitleCheckedFirst | backend/routes/notes.js:92-97 | a missing title is refused whatever the storage usage |
| LiveRoutes.QuotaIgnoresTags | backend/routes/notes.js:98 | the tags do not count towards the quota gate |
| LiveRoutes.CreateNote | backend/routes/notes.js:87-124 | a rejected or invalid note leaves the store unchanged; a valid one is appended, stamped by the pre-save hook |
| LiveRoutes.LiveEdit | backend/routes/notes.js:138-143 | only the fields present change (trimmed, a non-array tags as [], category lowercased); id, owner, pinned and times are kept |
| LiveRoutes.EmptyEditKeepsNote | backend/routes/notes.js:140-143 | an update with an empty body changes no field |
| LiveRoutes.UpdateNote | backend/routes/notes.js:127-151 | 404 before 403 and neither changes the store; a failed edit or save changes nothing; a valid edit is saved in place with a new `updatedAt` |
| LiveRoutes.TogglePin | backend/routes/notes.js:154-172 | the note's `pinned` flag is flipped in place with a new `updatedAt`; denied requests change nothing |
| LiveRoutes.ToggleTwice | backend/routes/notes.js:165 | two toggles restore `pinned`; the note differs only in `updatedAt` |
| LiveRoutes.DeleteNote | backend/routes/notes.js:175-192 | the owner's delete removes the note and a later lookup of the id gives 404; denied requests change nothing |
| LiveRoutes.SearchNotes | backend/routes/notes.js:195-213 | exactly the requester's notes whose title or content matches (not the tags), each as often as stored, newest first, with no limit |
| LiveRoutes.GetStats | backend/routes/notes.js:216-240 | total and pinned counts (pinned ≤ total), distinct categories of exactly the owner's notes, the storage report and the 1024 MB limit |
| NoteController.PageCount | backend/controllers/noteController.js:43 | `pages` is ceil(total/limit), and is not a finite number for a limit of 0 |
| NoteController.PageSlice | backend/controllers/noteController.js:31-32 | skip then limit: the slice starts after `skip` sorted matches, stays sorted and has the length the bounds give |
| NoteController.Paginate | backend/controllers/noteController.js:29-44 | a page is the sorted matches after (page−1)·limit, at most `limit` of them, with `total` counting all matches and `pages` their page count; a negative skip is refused |
| NoteController.GetNotes | backend/controllers/noteController.js:5-50 | owner-scoped, filtered, paginated listing (default page 1, limit 50); a bad pattern or a negative skip is a 500 |
| NoteController.PageWithinCount | backend/controllers/noteController.js:31-43 | for positive page and limit, a page holds notes exactly when it is not past `pages`; a page past the end is empty while `total` still counts everything |
| NoteController.SkipWithinPages | backend/controllers/noteController.js:31-43 | (page−1)·limit < total exactly when page ≤ ceil(total/limit) |
| NoteController.NormalizedTagsAreNormal | backend/controllers/noteController.js:84-86 | normalised tags are non-empty, trimmed and lowercase, and no more than given |
| NoteController.NormalizeSingle | backend/controllers/noteController.js:84-86 | an element is kept, trimmed and lowercased exactly when it is a non-blank string |
| NoteController.NormalizeAppend | backend/controllers/noteController.js:84-86 | normalisation works element by element, so it keeps the order |
| NoteController.NormalizeShape | backend/controllers/noteController.js:84-86 | a clean tag, a space-padded tag and an empty string normalise to the two tags lowercased |
| NoteController.NormalizeNormal | backend/controllers/noteController.js:125-129 | normalising already normal tags changes nothing |
| NoteController.TrimAllNormal | backend/models/Note.js:20-24 | the schema's trimming setter leaves normalised tags as they are |
| NoteController.ControllerCreatePlan | backend/controllers/noteController.js:74-94 | blank title gives 400. The note has trimmed title and content, normalised tags, lowercased category and the defaults; a non-string field is a 500. There is no quota |
| NoteController.CreateNote | backend/controllers/noteController.js:74-105 | a schema failure is a 400 carrying the failing paths and leaves the store unchanged; a valid note is appended |
| NoteController.ControllerEdit | backend/controllers/noteController.js:121-130 | only the present fields change: trimmed, normalised tags, lowercased category |
| NoteController.AssignmentsSettle | backend/controllers/noteController.js:123-129 | the schema's setters leave the handler's trimmed title and normalised tags unchanged |
| NoteController.UpdateNote | backend/controllers/noteController.js:108-141 | a malformed id gives 400, then 404, then 403; a schema failure is a 400 with the paths; nothing changes unless the save succeeds |
| NoteController.TogglePin | backend/controllers/noteController.js:144-164 | pinned is flipped in place, after the 400/404/403 checks |
| NoteController.DeleteNote | backend/controllers/noteController.js:167-186 | delete after the 400/404/403 checks; a later lookup gives 404 |
| NoteController.GetNote | backend/controllers/noteController.js:53-71 | a malformed id gives 400 before any lookup, then 404, then 403 |
| NoteController.SearchNotes | backend/controllers/noteController.js:189-214 | a blank query gives 400. Results are the requester's notes matching title, content or a tag, newest first, the top min(50, matches), none more often than stored |
| NoteController.EstimateCoversShortTags | backend/controllers/noteController.js:235-249 | the 50-bytes-per-tag estimate is at least the exact size when no tag is over 50 bytes |
| NoteController.AllTags | backend/controllers/noteController.js:227 | the unwound tags are exactly the tags of the notes |
| NoteController.GroupTags | backend/controllers/noteController.js:228-229 | one entry per distinct tag with its occurrence count |
| NoteController.TallyPermuted | backend/controllers/noteController.js:230 | sorting the grouped counts keeps them a tally |
| NoteController.TagCounts | backend/controllers/noteController.js:225-231 | the tag aggregation: each distinct tag once, with its number of occurrences, in descending order of count |
| NoteController.GetStats | backend/controllers/noteController.js:217-268 | counts, distinct categories, distinct tag count, the rounded estimate, the 1024 limit, and the popular tags below |
| NoteController.PopularTags | backend/controllers/noteController.js:262 | min(10, distinct tags) entries, each a different tag with its true number of occurrences, in descending count and none outranked by a tag left out |
| TagStrings.ParseTags | frontend/src/pages/CreateNote.jsx:243 | no parsed tag is empty, padded with white space or contains a comma |
| TagStrings.ParseAtComma | frontend/src/pages/CreateNote.jsx:243 | a comma splits the parse into two independent parses |
| TagStrings.ParseNoComma | frontend/src/pages/CreateNote.jsx:243 | a comma-free string parses to its trimmed self, or to nothing when blank |
| TagStrings.JoinParseRoundTrip | frontend/src/pages/CreateNote.jsx:243-304 | tags that are non-empty, trimmed and comma-free, joined with ", " and parsed, give back the same list |
| TagStrings.ParseJoinParse | frontend/src/pages/EditNote.jsx:168-207 | parse, join and parse again gives the first parse |
| TextStats.StripTags | frontend/src/pages/CreateNote.jsx:125 | no `<` of the plain text is followed by a `>`; it is no longer than the input and holds only characters of the input (the lemmas below fix which ones) |
| TextStats.StripPlainPrefix | frontend/src/pages/CreateNote.jsx:125 | text before the first `<` is kept as it is |
| TextStats.StripTagElement | frontend/src/pages/CreateNote.jsx:125 | a `<`, the text up to the next `>` and that `>` are removed together |
| TextStats.StripUnclosed | frontend/src/pages/CreateNote.jsx:125 | a `<` with no `>` after it is kept |
| TextStats.StripTagFree | frontend/src/pages/CreateNote.jsx:125 | text with no tag in it is left unchanged |
| TextStats.StripIdempotent | frontend/src/pages/CreateNote.jsx:125 | stripping twice is stripping once |
| TextStats.Words | frontend/src/pages/CreateNote.jsx:126 | every word is non-empty and holds no white space |
| TextStats.WordCountIsRuns | frontend/src/pages/CreateNote.jsx:126 | the word count is the number of maximal runs of non-white-space characters |
| TextStats.WordsIgnoreTrim | frontend/src/pages/CreateNote.jsx:126 | the trim before the split changes no word |
| TextStats.ReadingMinutes | frontend/src/pages/CreateNote.jsx:128 | reading time is ceil(words/200): 0 exactly for no words |
| TextStats.Statistics | frontend/src/pages/EditNote.jsx:86-89 | words are the runs of the plain text, characters its UTF-16 length, minutes ceil(words/200) |
| CreateNotePage.CreateSubmit | frontend/src/pages/CreateNote.jsx:235-245 | nothing is sent exactly when the title is blank; otherwise the form as typed, with tags parsed |
| CreateNotePage.ClearDraft | frontend/src/pages/CreateNote.jsx:286-297 | a confirmed clear resets the form to '', '', 'general', ''; a declined one keeps it |
| CreateNotePage.ClearedFormNotSent | frontend/src/pages/CreateNote.jsx:237-294 | a cleared form cannot be submitted |
| CreateNotePage.UseTemplate | frontend/src/pages/CreateNote.jsx:299-306 | a template fills the form with its tags joined by ", " |
| CreateNotePage.TemplateSubmit | frontend/src/pages/CreateNote.jsx:243-304 | submitting a template unchanged sends the template's own tag list |
| CreateNotePage.TemplateTagsRoundTrip | frontend/src/utils/templates.js:48-280 | the tag lists of all seven bundled templates survive the join and the parse |
| EditNotePage.FormFromNote | frontend/src/pages/EditNote.jsx:164-169 | loading fills the form with the note's fields, 'general' for an empty category, and the tags joined by ", " |
| EditNotePage.EditSubmit | frontend/src/pages/EditNote.jsx:195-208 | a blank title gives 'Title is required' and sends nothing. Otherwise the title is trimmed, the content sent unchanged, the category lowercased and the tags parsed |
| EditNotePage.LoadResubmit | frontend/src/pages/EditNote.jsx:168-207 | loading and resubmitting returns the stored tags unchanged when they are plain |
| EditNotePage.CategoriesLower | backend/models/Note.js:28 | every enum category is already lowercase |
| EditNotePage.StoredNoteResubmit | frontend/src/pages/EditNote.jsx:164-208 | a stored note with plain tags, loaded and resubmitted unchanged, sends exactly its own title, content, category and tags |

## Left out

- Authentication (passport, JWT, OAuth) is left out. The requester's id is an input, and the ObjectId casting of `req.user._id` / `req.user?.id` is not modelled. In particular, the controller's aggregation pipelines compare `owner` with the raw `req.user?.id`, without a cast.
- ObjectIds: only the 24-hex-digit form is modelled; the 12-byte-string form that `isValid` also accepts is left out. A new note's id comes from `NoteModel.FreshId`, larger than every stored id, in place of the generated ObjectId.
- Time: `Date.now` is the store's logical clock, which every successful save advances by one. Real time is not modelled.
- Regular expressions: their semantics are left abstract (`RegexEngine`). Neither variant escapes the user's pattern, and the model claims no literal-substring behaviour.
- Order of ties: notes with equal sort keys keep their natural (insertion) order, which MongoDB does not promise. `distinct` is modelled in order of first occurrence, which MongoDB does not promise either. Likewise, tags with equal counts keep first-occurrence order.
- Numbers: JSON numbers are integers in the model. `limit` and `page` arrive as query strings that the handlers convert themselves (`Number(limit)`, `(page - 1) * limit`). The model takes them as the integers that conversion yields. Strings that convert to `NaN` or to a fraction are left out, and so is floating point in general. A `pages` value that is not finite is `None`.
- Lowercasing touches only the ASCII letters. JavaScript's Unicode case mapping is left out.
- Strings are sequences of Unicode scalar values, so lone surrogates are not representable. `length` counts UTF-16 code units through `Text.Utf16Length`.
- `NoteModel.CastTag`: a `null` tag element is taken as the empty string. Mongoose's exact cast of `null` inside string arrays is not modelled beyond that.
- `LiveRoutes.ContentText`: `title + content` for a non-string content uses JavaScript's string conversion for arrays and plain objects. Other objects are not modelled.
- Messages: only the status and the outcome of each failure are modelled, not the response text. The "Storage limit exceeded" 400 carries `usedMB` (as hundredths) and `limitMB`.
- LiveRoutes.GetStats: the second rounding `Math.round(usedMB * 100) / 100` applies to a value already rounded to hundredths, so it is the identity and is not modelled.
- Failures of the database itself (a query of `Promise.all` rejecting, a lost connection) are not modelled. The exception is `calculateStorage`'s own query, whose failure is the `queryFails` parameter.
- Concurrency: requests are modelled one at a time. Races between the quota check and the insert are left out.
- `getCategories` and `getTags` call model statics (`Note.getUserCategories`, `Note.getUserTags`) that backend/models/Note.js does not define. They are left out.
- Front end:
  - The React state, localStorage drafts, timers, confirmation dialogs and the API client are left out. A confirmed `clearDraft` is the `confirmed` argument.
  - The draft-restore branch of `fetchNote` is not modelled.
  - Export to PDF and HTML is left out. The templates' titles and contents are only inputs.
- TextStats.Words: `split(/\s+/)` is modelled as splitting at each white-space character and then dropping the empty pieces, which gives the same words.
