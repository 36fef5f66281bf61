# Client-side note sync of `life`, modelled in Dafny

This project models the browser client of the `life` notes app. It covers
the manual sync session, the uuid-keyed local note store, the UI state
reducer, and the rules around them:

- sorting;
- the inclusive date-range filter;
- the date range set after a load;
- relative-time labels;
- the translation-table builder;
- note creation in the add-note editor;
- the editor's keyboard shortcuts.

Each source file is one module:

| module | file | form |
|---|---|---|
| `Types` | `types.dfy` | records of `src/types/index.ts`, days, date keys, `String.prototype.trim` |
| `NoteSort` | `note_sort.dfy` | `sortNotes` of `src/utils/note.ts`, a stable sort on values |
| `NoteContext` | `context.dfy` | `initialState` and `noteReducer`, pure functions on a `State` record |
| `Db` | `db.dfy` | `DatabaseService`, a class whose notes table is a `map` keyed by uuid |
| `DateFormat` | `date_format.dfy` | `formatRelativeTime` bucketing |
| `I18n` | `i18n.dfy` | `translate`, a loop filling two maps, and the concrete key table |
| `Editor` | `editor.dfy` | `editorShortcutListener`, a function from a keystroke to a reaction |
| `App` | `app.dfy` | the `App` component: pure display rules, plus class `NotesApp` whose handlers are methods |
| `AddNote` | `add_note.dfy` | the `AddNote` component, class `AddNoteForm` |

Timestamps are integer milliseconds since the epoch, in UTC. The
`YYYY-MM-DD` prefix of a timestamp is its day number (`DayOf`). The
date-range strings of the UI state are `DateKey`s: `Blank` is the
initial `''`, which sorts before every date under string comparison.

The clock, the server's reply, and which `put`s throw are parameters of
the handlers, and so are the uuids `generateUUID` returns:

- `now` is the instant the handler runs;
- `reply` is the decoded sync response, or `TransportFailure`;
- `failing` is the set of positions in the sync loop whose write throws;
- `fault` says whether the single write of a note creation throws.

Where an idealised sync protocol (mtime comparison, watermark advance, busy flag, error inspection) would differ from the code, the model follows the code:

- The client compares no `mtime`. It writes every note of `server_newer` and then of `only_on_server` as it comes.
- The sync path never calls `setLastSync`, so the watermark is untouched by a session (`ManualSync` ensures `store.lastSync` is unchanged).
- There is no busy flag in the handler. A second session is kept off only by the disabled button.
- An error-shaped reply is not inspected. With its note lists missing, it writes nothing and ends with the success message.
- A write that fails mid-loop stops the loop. The earlier writes stay in place: there is no rollback.

## Model

| member | source | states |
|---|---|---|
| Types.DayOf | src/App.tsx:40 | The day of an instant is the one whose 24 hours contain it (floor division), which is what the `YYYY-MM-DD` prefix of a UTC timestamp names. |
| Types.TrimStart | src/App.tsx:134 | The result is a suffix of the input whose dropped characters are all white space and whose first character is not. |
| Types.TrimEnd | src/App.tsx:134 | The result is a prefix of the input whose dropped characters are all white space and whose last character is not. |
| Types.TrimEmptyIff | src/components/AddNote.tsx:18 | A draft trims to the empty string exactly when all of its characters are ECMAScript white space or line terminators. |
| Types.LastIndex | src/i18n.ts:14-18 | The last position holding a value, or none exactly when the value does not occur. |
| NoteSort.Insert | src/utils/note.ts:4-8 | Inserting into an ordered list gives an ordered list with the new note added to the multiset. |
| NoteSort.Sort | src/utils/note.ts:4-8 | The result is a permutation of the input, ordered by the comparator. |
| NoteSort.InsertWithKey | src/utils/note.ts:4-8 | Insertion puts the new note in front of the notes sharing its key and changes no other key's notes. |
| NoteSort.SortWithKey | src/utils/note.ts:4 | Sorting is stable: for every timestamp, the notes with that timestamp keep their input order. |
| NoteSort.SortNotes | src/utils/note.ts:3-9 | Same length and same multiset as the input. Adjacent timestamps are non-increasing for "desc" and non-decreasing for any other direction string. The result is stable. |
| NoteSort.SortUnique | src/utils/note.ts:4-8 | Two ordered lists with the same notes per timestamp are equal, so the order depends only on the selected field's timestamps and the input order. |
| NoteSort.SortNotesIsTheStableSort | src/utils/note.ts:3-9 | Every ordered, stable rearrangement of the input is the result of `sortNotes`. |
| NoteContext.InitialState | src/context/NoteContext.tsx:36-50 | Logged out, no notes, not syncing, sort ctime/desc, 7 sync days, blank range, empty credentials and draft. |
| NoteContext.Reduce | src/context/NoteContext.tsx:54-87 | Every field the action does not touch keeps its value. The touched fields take the payload. `LOGOUT` clears the notes. Unknown actions change nothing. |
| NoteContext.AgreeEverywhere | src/context/NoteContext.tsx:54-87 | Two states equal in every field are the same state (the reducer's frame is complete). |
| NoteContext.ReduceDetermined | src/context/NoteContext.tsx:54-87 | A state that keeps every untouched field and establishes the action's effect is exactly the reducer's result. |
| NoteContext.ReduceIdempotent | src/context/NoteContext.tsx:56-85 | Dispatching the same action twice equals dispatching it once. |
| NoteContext.SetterLastWins | src/context/NoteContext.tsx:60-83 | Of two `SET_*` actions on the same field, the later one decides the result. |
| NoteContext.LogoutKeepsSettings | src/context/NoteContext.tsx:58-59 | `LOGOUT` clears the login flag and the notes and keeps credentials, sync days, sort option and date range. |
| Db.NoteStore.constructor | src/services/db.ts:22-31 | A new database has an empty notes table and no `lastSync` record. |
| Db.NoteStore.SaveNote | src/services/db.ts:33-35 | A successful `put` stores the note under its uuid, replacing any record there. Other uuids and `lastSync` are unchanged. A failed `put` writes nothing. |
| Db.NoteStore.GetAllNotes | src/services/db.ts:37-39 | The result lists every stored record exactly once and nothing else. |
| Db.NoteStore.GetLastSync | src/services/db.ts:41-43 | Returns the single `lastSync` slot, which is empty until `setLastSync` runs. |
| Db.NoteStore.SetLastSync | src/services/db.ts:45-47 | Overwrites the single slot and leaves the notes table alone. |
| Db.SavedNoteIsListed | src/services/db.ts:33-39 | After `saveNote(n)`, `getAllNotes` contains `n`. |
| Db.WatermarkRoundTrip | src/services/db.ts:41-47 | `setLastSync(t1)` then `setLastSync(t2)` then `getLastSync()` yields `t2`, and the notes are untouched. |
| DateFormat.DiffInSeconds | src/utils/dateFormat.ts:52 | The floor of the elapsed milliseconds divided by 1000. |
| DateFormat.FormatRelativeTime | src/utils/dateFormat.ts:48-73 | Exactly one bucket applies: just now below 60 s, including future times. Otherwise minutes 1..59, hours 1..23 or days 1..6, each the floor of the age in that unit. The absolute label applies from one week on. |
| DateFormat.FormatRelativeTimeMonotone | src/utils/dateFormat.ts:54-73 | An older timestamp never gets a younger label. |
| I18n.DictOfLookup | src/i18n.ts:14-18 | A key is in a language's dictionary exactly when some triple has it. Its value comes from the last triple with that key. |
| I18n.DictOfSize | src/i18n.ts:14-18 | With distinct keys, a dictionary has one entry per triple. |
| I18n.Translate | src/i18n.ts:12-20 | `en` and `zh` have the same keys, which are the keys of the input. `en[k]` and `zh[k]` are the second and third components of the last triple with key `k`. An empty input gives two empty maps. |
| I18n.TableKeys | src/i18n.ts:22-59 | The table's keys are the 28 listed keys, in order. |
| I18n.TableKeysDistinct | src/i18n.ts:22-59 | No key of the concrete table repeats. |
| I18n.Resources | src/i18n.ts:22-59 | Each language has exactly 28 entries, with the same keys. |
| Editor.OnKeyDown | src/utils/editor.ts:3-14 | Escape cancels, whatever the modifiers. Exactly `s` with Ctrl or Meta saves after `preventDefault`. Every other key does nothing. At most one callback runs. |
| Editor.ExactKeyMatch | src/utils/editor.ts:5-8 | Upper-case `S` and an unmodified `s` trigger nothing. Escape with any modifiers cancels without `preventDefault`. |
| App.SortBy | src/App.tsx:54-60 | A permutation of the notes, ordered and stable under the current sort option. |
| App.SyncWindowFor | src/App.tsx:90-96 | The window starts at midnight of the day `syncDays` before today and ends at 23:59:59 of today. It is non-empty exactly when `syncDays >= 0`. |
| App.FilterByRange | src/App.tsx:77-84 | Each note is kept, as often as it occurs, exactly when its date lies in the range with both ends included. Nothing else is kept. |
| App.FilterReversedRangeEmpty | src/App.tsx:79-82 | A range whose start is after its end keeps nothing. |
| App.FilterKeepsAll | src/App.tsx:79-82 | A range containing every note keeps the whole list. |
| App.NewestFirstRangeCoversAll | src/App.tsx:39-51 | Under the initial ctime-descending order, the range set after a load is well formed and contains every loaded note. |
| App.OldestFirstRangeIsReversed | src/App.tsx:39-51 | Under a ctime-ascending order, that range is well formed only when all notes share one day. |
| App.DayOfMonotone | src/App.tsx:40 | A later instant never falls on an earlier day. |
| App.Upserts | src/App.tsx:104-106 | The store after the writes holds the old uuids plus the written ones. It stays keyed by uuid. |
| App.UpsertsAt | src/App.tsx:104-106 | Per uuid, the last written note with that uuid is stored. A uuid not written keeps its old entry, or its absence. |
| App.UpsertsAppend | src/App.tsx:104-106 | Writing one list and then another equals writing their concatenation. |
| App.SavedPrefix | src/App.tsx:104-111 | The number of writes that take effect: every earlier position succeeds, and if the loop stopped early, the position it stopped at failed. |
| App.ErrorReplyIsSilentSuccess | src/App.tsx:101-109 | A reply without note lists, such as an error shape, writes nothing and reaches the success branch. |
| App.OnlyOnServerCopyWins | src/App.tsx:101-106 | For a uuid in `only_on_server`, the store ends with its last `only_on_server` copy, whatever `server_newer` held. |
| App.SyncKeepsUnmentioned | src/App.tsx:104-106 | A uuid the reply does not mention keeps its entry, or its absence, whatever writes fail. |
| App.RetryConverges | src/App.tsx:104-111 | A failed session's writes stay in place. A later session that writes all of the same reply ends with the store a single successful session gives. |
| App.SortChange | src/App.tsx:62-65 | The intended sort change: the option is set and the list is re-sorted by it, as a permutation. No other field changes. |
| App.SortChangeAsWritten | src/App.tsx:54-65 | The sort change as the code does it: the new option is set, but the list is a permutation ordered by the replaced option. No other field changes. |
| App.SortChangeAsWrittenKeepsOldOrder | src/App.tsx:62-65 | For two notes shown newest first, switching to ctime ascending leaves them newest first: the list is re-sorted with the replaced option. |
| App.NotesApp.constructor | src/context/NoteContext.tsx:89-90 | The component starts from the initial state over the given store. |
| App.NotesApp.Dispatch | src/context/NoteContext.tsx:90 | The new state is the reducer applied to the old state and the action. |
| App.NotesApp.LoadLocalNotes | src/App.tsx:34-52 | The list becomes all stored notes, sorted by the current option. The range runs from the date of the last sorted note to the date of the first, or today..today for an empty store. Nothing else changes. |
| App.NotesApp.HandleDateRangeChange | src/App.tsx:72-84 | The range is set. The list becomes the stored notes inside it, sorted. Nothing else changes. |
| App.NotesApp.HandleSortChange | src/App.tsx:62-65 | As the code does it: the state becomes `SortChangeAsWritten` of the old state, so the option changes and the list stays ordered by the replaced option. |
| App.NotesApp.SaveAll | src/App.tsx:104-106 | The loop writes the notes in order and stops at the first failing write. The store equals the old store with the `SavedPrefix` writes applied, and `lastSync` is unchanged. |
| App.NotesApp.ManualSync | src/App.tsx:86-117 | The request carries the window and exactly the loaded list. The store ends with the successful prefix of `server_newer ++ only_on_server` applied, and the watermark is untouched. On success: the list and range are reloaded, with the success message. Otherwise only the failure message is set. `isSyncing` is false afterwards either way. |
| App.NotesApp.HandleAddNote | src/App.tsx:133-146 | A blank draft changes nothing. A failed write changes nothing. Otherwise one note is stored under the new uuid, holding the untrimmed draft, with `id`, ctime and mtime from the clock and no deletion time. Then the draft is cleared and the list and range reloaded. A fresh uuid grows the store by one. |
| AddNote.AddNoteForm.constructor | src/components/AddNote.tsx:15 | The editor starts with an empty draft and no refreshes. |
| AddNote.AddNoteForm.ChangeDraft | src/components/AddNote.tsx:51 | Typing replaces the draft. |
| AddNote.AddNoteForm.Save | src/components/AddNote.tsx:17-31 | A blank draft, or a failed write, changes nothing: no save, same `addingNote`, same draft, no refresh. Otherwise exactly one note holding the untrimmed draft is stored. Then `addingNote` becomes false, the draft is emptied and `refreshNotes` is called once. |
| AddNote.AddNoteForm.Cancel | src/components/AddNote.tsx:33-35 | `addingNote` becomes false and the draft is kept. |
| AddNote.AddNoteForm.KeyDown | src/components/AddNote.tsx:37 | Escape cancels: `addingNote` becomes false, and the draft, refresh count and store are kept. Ctrl/Meta+`s` prevents the default and saves. With a blank draft or a failed write that changes nothing. Otherwise one note is stored, the editor closes, the draft is emptied and `refreshNotes` runs once. Any other key changes nothing. `lastSync` is never touched. |

## Findings

| source | as written | input that shows it | evidently intended | confidence | as-written member | corrected member |
|---|---|---|---|---|---|---|
| src/App.tsx:62-65 | `handleSortChange` dispatches the new sort option and then sorts `state.notes` with `sortNotes`. That closure reads the sort option of the current render, i.e. the option being replaced. | Two notes with ctimes 2000 and 1000, shown newest first. Choose ctime ascending: the list stays [2000, 1000]. | The list is re-sorted by the newly chosen option. | not executed | App.SortChangeAsWrittenKeepsOldOrder | App.SortChange |

The component model keeps the code's behaviour: `App.NotesApp.HandleSortChange` ensures `SortChangeAsWritten`. `App.SortChange` is the intended effect, and its ordering under the new option is proved.

## Left out

- HTTP (`ApiService`, src/services/api.ts): fetch, JSON decoding and the bearer token are replaced by the `Reply` input.
- IndexedDB setup (`openDB`, the upgrade callback, the `by-updated`/`by-created` indexes) is replaced by an in-memory map. The indexes name fields a note does not have.
- `Db.NoteStore.GetAllNotes`: the order of the records `getAll` returns is not modelled, only that each record appears once.
- A failing `getAllNotes` is not modelled. Only `put` failures are inputs.
- Authentication (`handleLogin`, `Login.tsx`, the token in `localStorage`) and `handleLogout`'s storage call. Only the `LOGIN`/`LOGOUT` transitions are modelled, in the reducer.
- Rendering, the toolbar, toasts, `changeLanguage`, and the timer that clears the sync message after three seconds. That timer's dispatch is an ordinary `SET_SYNC_MESSAGE`, covered by `Reduce`.
- `handleSyncDaysChange` is a single `SET_SYNC_DAYS` dispatch, covered by `Reduce` and `Dispatch`.
- `formatDateTime` and the other `Intl` wrappers: the absolute label is the constant `Absolute`. The `catch` fallback for unparsable timestamps is left out, because timestamps are integers here.
- The `unit != ""` test in `formatRelativeTime`: the model's buckets are exhaustive, so it only separates the absolute case.
- i18next configuration and the interpolation of `timing.num_unit_ago`.
- Date parsing and time zones. `setDate` works in local time while `toISOString` is UTC. The model takes whole UTC days, so a daylight-saving shift cannot move the window's start day.
- `App.NotesApp.ManualSync`, `App.NotesApp.HandleAddNote`, `AddNote.AddNoteForm.Save`: each handler reads the clock once (`now`). The source reads it up to three times, so `id`, ctime and mtime may differ by a millisecond there.
- `generateUUID` (src/utils/uuid.ts) is not part of this model. The uuid is a parameter, and the growth of the store by one is stated for a uuid not yet stored.
- The response's `from_timestamp`, `to_timestamp`, `code` and `error` are carried in `SyncResponse` but never read, as in the source.
- Concurrency: every handler runs to completion before the next one starts. Two overlapping sessions are not modelled. A handler reads the state of the render it belongs to: the model takes that state when the handler starts, which is what makes `HandleSortChange` sort by the replaced option.
- Service workers, the Workbox configuration and the bootstrap in src/index.tsx.
