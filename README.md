# Police-welfare notice board: the notice store and view controller

A Dafny model of the `App` component of a single-page notice board
(`App.tsx`) and of the constants it depends on (`constants.ts`). The
component keeps a flat list of notices in browser storage and seeds it with
three example notices when nothing is stored. The home screen shows a search
projection of the list: a substring filter on title or content, then a stable
sort by creation time, newest first. One hard-coded credential pair
(`admin`/`admin123`) opens an admin area, where notices are published and
deleted. A drafting form can ask an external service to rewrite the draft
text.

Modules, one per concern:

- `types.dfy` (`Types`): `Notice`, `User`, `View` and `Option`. They are
  defined from how the component uses them, because `types.ts` is not part
  of this model.
- `constants.dfy` (`Constants`): the seed notices, stamped relative to a
  clock instant `now` given as a parameter. Also the category list and the
  two storage keys, with lemmas about all of them.
- `seqs.dfy` (`Seqs`): `Keep`, the order-preserving filter used both by the
  search and by deletion, with its laws.
- `projection.dfy` (`Projection`): substring matching, the stable
  newest-first insertion sort, and the projection `Project`. Lemmas show
  that it keeps exactly the matching notices, without adding or duplicating
  any. They also show that its output is newest-first and stable, and that
  projecting twice changes nothing.
- `store.dfy` (`Store`): storage, a map from key to a stored notice list or
  a cached session. Also the load choice between the stored list and the
  seed, the write-through policy, deletion by id, and the decimal id made
  from a clock read.
- `scenarios.dfy` (`Scenarios`): what the home screen shows for the seed.
- `app.dfy` (`App`): class `NoticeBoard`, which holds the component's state
  fields and storage. It has one method per event handler, and each method
  names the fields it changes.

Every handler requires the condition under which its control is on screen:
- the view that renders it;
- the header's session test for the manage, sign-out and sign-in buttons;
- the browser's `required` check on the create form's title and content
  (the sign-in form's inputs are also `required`, but `SubmitLogin` does not
  require them: an empty username or password fails the credential test
  anyway, so the outcome is the same);
- the category drop-down's fixed options.

`NoticeBoard.Valid()` is kept by every handler. It proves the following:
- A non-empty list is always what storage holds.
- The cached session is always the live one.
- The detail screen always has a notice to show.
- The admin and create screens are never shown without a session. This
  holds even though the publish and cancel buttons do not re-check the
  session: signing out always leads home, and the create screen can only be
  reached from the admin screen.

In these places the code's behaviour may be unintended; the model follows
the code:
- The list is written only when it is non-empty. So deleting the last notice
  leaves the previous list in storage, and a restart brings it back
  (`Store.ReloadAfterEmptying`).
- Ids are not guaranteed unique, and a delete removes every notice with the
  given id.
- The restored session is not validated.
- The admin and create handlers do not re-guard against a missing session.
- A failed sign-in only shows an alert and changes no state.

## Model

| member | source | states |
|---|---|---|
| `Seqs.Keep` | App.tsx:32 | the result holds exactly the elements of the input that pass the test, and is never longer than the input |
| `Seqs.KeepConcat` | App.tsx:166 | filtering a concatenation is the concatenation of the filtered parts, so the relative order of kept elements is preserved |
| `Seqs.KeepMultiset` | App.tsx:32 | every kept element occurs as often as in the input and every other element not at all: nothing is added or duplicated |
| `Projection.SortNewestFirst` | App.tsx:33 | the sorted list is a permutation of its input ordered by `createdAt` non-increasing |
| `Projection.SortStable` | App.tsx:33 | for each timestamp, the notices carrying it appear in the sorted list in their input order (the sort is stable) |
| `Projection.SortSorted` | App.tsx:33 | a list that is already newest-first is returned unchanged |
| `Projection.EmptyQueryMatches` | App.tsx:32 | every notice matches the empty query (`includes('')` is true) |
| `Projection.Contains` | App.tsx:32 | `includes`: a prefix of the text is contained in it, and nothing longer than the text is |
| `Projection.Matches` | App.tsx:32 | the search test on title or content; a matching query is no longer than the title or the content (full properties: ProjectSpec) |
| `Projection.Filter` | App.tsx:32 | the search filter: never longer, and holds exactly the notices of the list matching the query (definition: `Keep` with `Matches`; multiplicity by KeepMultiset; its order is the one ProjectSpec keeps among equal timestamps) |
| `Projection.Insert` | App.tsx:33 | one step of the stable sort: the result is the input with `x` added, as a multiset (order and stability: InsertNewestFirst, InsertAtTime, SortStable) |
| `Projection.Project` | App.tsx:30-34 | the `filteredNotices` list is newest-first and holds exactly the notices of the list matching the query (multiplicity and stability: ProjectSpec) |
| `Projection.ProjectSpec` | App.tsx:30-34 | a notice is in the projection iff it is in the list and its title or content contains the query; its multiplicity is the list's when it matches and zero otherwise; the projection is newest-first and keeps the filter's order among equal timestamps |
| `Projection.ProjectEmptyQuery` | App.tsx:30-33 | the empty query projects to the whole list sorted newest first, a permutation of the list |
| `Projection.ProjectIdempotent` | App.tsx:30-34 | projecting the projection again with the same query gives the same sequence |
| `Constants.Seed` | constants.ts:4-29 | the seed holds exactly three notices |
| `Constants.SeedIds` | constants.ts:6-22 | the seed ids are "1", "2", "3", pairwise distinct |
| `Constants.SeedTimesIncrease` | constants.ts:10-26 | seed timestamps now−86400000 < now−28800000 < now−1000000 strictly increase by index |
| `Constants.SeedCategoriesKnown` | constants.ts:9-31 | every seed notice's category is one of the offered categories |
| `Constants.CategoriesDistinct` | constants.ts:31 | the category list has five pairwise distinct labels and starts with 健康关爱 |
| `Constants.KeysDistinct` | constants.ts:32-33 | the notice-list key and the session key differ |
| `Store.SessionRestart` | App.tsx:22-23 | a restart after signing in restores exactly the cached user, after signing out no session, and writing the list changes neither |
| `Store.Persisted` | App.tsx:26-28 | the write-through keeps storage well-typed, never touches the cached session, and writes nothing for an empty list |
| `Store.PersistThenLoad` | App.tsx:19-28 | after a non-empty list is written, a restart loads exactly that list and the same session |
| `Store.ReloadAfterEmptying` | App.tsx:26-28 | after the list becomes empty, a restart loads what was stored before, or the seed if nothing was |
| `Store.SessionWritesKeepNotices` | App.tsx:41 | caching or clearing the session leaves the stored list as it was |
| `Store.RemoveId` | App.tsx:166 | the delete filter: never longer, and holds exactly the notices with another id (multiplicity and order: RemoveIdSpec) |
| `Store.RemoveIdSpec` | App.tsx:166 | after deleting an id, a notice is in the list iff it was before and has a different id; survivors keep their multiplicity, and deletion distributes over concatenation (order is kept) |
| `Store.RemoveAbsentId` | App.tsx:166 | deleting an id no notice carries leaves the list unchanged |
| `Store.RemoveIdLength` | App.tsx:166 | deleting shortens the list by exactly the number of notices carrying the id |
| `Store.RemoveUniqueId` | App.tsx:166 | with unique ids, deleting a present id makes the list exactly one shorter and removes that id |
| `Store.NoticeId` | App.tsx:59 | the id of a clock read is a non-empty string of decimal digits with no leading zero ("0" for zero), as `toString` gives |
| `Store.NoticeIdRoundTrip` | App.tsx:59 | reading the id back as a decimal number gives the clock read |
| `Store.NoticeIdInjective` | App.tsx:59 | two clock reads give the same id iff they are equal |
| `Scenarios.SeedListedNewestFirst` | constants.ts:10-26 | with an empty query the seed is shown as ids 3, 2, 1 |
| `Scenarios.SeedSearchCheckup` | constants.ts:7-24 | the query 体检 projects the seed to notice "1" alone |
| `App.DefaultCategoryOffered` | App.tsx:17 | the form's default category is the first entry of the category list |
| `App.NoticeBoard.Mount` | App.tsx:19-28 | on mount the list is the stored one or the seed; the cached session is restored unchecked; the list is written through; home screen, empty search, blank forms |
| `App.NoticeBoard.PersistNotices` | App.tsx:26-28 | storage gets the list under the notice key when it is non-empty and is otherwise untouched |
| `App.NoticeBoard.FilteredNotices` | App.tsx:30-34 | the memoised home list for the current state is newest-first and holds exactly the notices matching the search string |
| `App.NoticeBoard.Search` | App.tsx:97 | the search string becomes the typed text |
| `App.NoticeBoard.SubmitLogin` | App.tsx:36-46 | succeeds iff the form holds admin/admin123; then the user is 管理员 with admin rights, cached under the session key, on the admin screen; on failure nothing changes |
| `App.NoticeBoard.Polish` | App.tsx:48-54 | an empty draft is left alone; otherwise only the content becomes the gateway's answer, title and category are kept; the busy flag ends lowered |
| `App.NoticeBoard.SubmitNotice` | App.tsx:56-67 | the list grows by one: the new notice first, the old list after it unchanged; the new notice has the form's title, content and category, the decimal id of the first clock read and the second read as timestamp, and the user's name (or 管理处 when there is none or it is empty) as author; it is written through so a restart loads it; the form is reset to 健康关爱 and the admin screen shown |
| `App.NoticeBoard.Delete` | App.tsx:166 | the list loses every notice with the id and keeps the rest in order; it is written through unless empty; selection, user and screen are untouched |
| `App.NoticeBoard.ClickLogo` | App.tsx:74 | the screen becomes home |
| `App.NoticeBoard.OpenAdmin` | App.tsx:82 | with a session, the screen becomes admin |
| `App.NoticeBoard.Logout` | App.tsx:83 | the user is cleared, the session key removed, the screen becomes home; the stored list is untouched |
| `App.NoticeBoard.OpenLogin` | App.tsx:86 | without a session, the screen becomes the sign-in form |
| `App.NoticeBoard.SelectNotice` | App.tsx:108-109 | a card of the home list becomes the selected notice and the detail screen is shown |
| `App.NoticeBoard.BackToList` | App.tsx:114-116 | from the detail screen, back to home |
| `App.NoticeBoard.CancelLogin` | App.tsx:149 | from the sign-in form, back to home |
| `App.NoticeBoard.Compose` | App.tsx:157 | from the admin screen to the create form, without re-checking the session |
| `App.NoticeBoard.CancelCreate` | App.tsx:175 | from the create form back to the admin screen, draft kept |
| `App.NoticeBoard.EditUsername` | App.tsx:145 | only the form's username changes |
| `App.NoticeBoard.EditPassword` | App.tsx:146 | only the form's password changes |
| `App.NoticeBoard.EditTitle` | App.tsx:180 | only the draft's title changes |
| `App.NoticeBoard.EditContent` | App.tsx:185 | only the draft's content changes |
| `App.NoticeBoard.EditCategory` | App.tsx:181-183 | only the draft's category changes, to one of the offered categories |

## Left out

- Rendering: the JSX markup, CSS classes, icons and `NoticeCard` are presentation only. They appear only as the on-screen conditions the handlers require.
- The rewriting service (`enhanceNoticeContent` in `geminiService.ts`) is not part of this model. Its answer is the `polished` parameter of `NoticeBoard.Polish`, and the await completes within the same event.
- NoticeBoard.Polish: does not model edits made while the request is in flight. The source would overwrite them with the form captured when the request started. It also does not model a rejected promise from the service, which in the source leaves the busy flag raised (App.tsx has no try/finally around the await).
- Browser storage and JSON: storage is a map from key to a stored value, either a notice list or a user.
- App.NoticeBoard.Mount: requires well-typed storage, meaning a notice list under the notice key and a user object under the session key. Everything else is not modelled. An empty stored string counts as absent. Other unparsable text makes `JSON.parse` throw. Under the notice key, a value that is not an array makes the render throw at `notices.filter`, and so does an entry without a `title`; a list whose notices lack `createdAt` loads, and the sort comparator then yields NaN. Under the session key, a falsy value (JSON `null`, `false`, `0`, `""`) gives no session; a truthy one becomes a "user", so the header offers the manage and sign-out buttons, and a new notice's author is that value's `username` when it is truthy and 管理处 otherwise.
- Store.LoadNotices and Store.RestoreSession are the definitions of the startup load and restore; their properties are stated by PersistThenLoad, ReloadAfterEmptying, SessionWritesKeepNotices, SessionRestart, the `Mount` constructor and the clause `RestoreSession(storage) == user` of `NoticeBoard.Valid()`.
- Constants.Seed: the source stamps the three seed notices from three separate `Date.now()` reads; the model takes them as one instant `now`. With any three non-decreasing reads, the offsets (one day, eight hours, 1000000 ms) keep the timestamps strictly increasing, so the seed's newest-first order is the same.
- Clocks and locale: the create handler's two `Date.now()` reads are parameters. `toLocaleString` only formats a date for display.
- Store.NoticeId: models `toString` for non-negative clock reads only, because `Date.now()` counts milliseconds since 1970.
- The alert after a failed sign-in is a UI side effect. `SubmitLogin` reports the failure as `ok == false` instead.
- React scheduling: each effect runs as a step right after the change that triggers it. `useMemo` is the function `Project`, recomputed on each read.
- `createdAt` is an integer here, while in the source it is a JavaScript number. Nothing is lost for the values the app produces: `Date.now()` gives whole milliseconds below 2^53 and the seed offsets are integers, so the subtraction in the sort comparator is exact.
- Strings are sequences of Unicode scalar values, while JavaScript strings are UTF-16 code units. `includes` gives the same answer on well-formed text; lone surrogates cannot be represented in the model.
- Several browser tabs sharing one storage are not modelled.
- `vite.config.ts` is build configuration and has no logic.
