# GitHub explorer: user cache, TTL cache and view state machine

This project models three parts of the GitHub explorer in Dafny.

- **The back end's user cache.** This is the Express controller over two
  PostgreSQL tables. `users` holds one row per GitHub login, with a soft-delete
  column `deleted_at`. `friends` holds directed `(user_id, friend_id)` edges.
  The model covers each handler:
  - fetch-or-create, including the resurrection of soft-deleted rows;
  - the friend sync: mutual followers, an upsert per friend, and an edge insert
    that ignores conflicts;
  - search;
  - soft delete;
  - partial update;
  - the sorted listing, with its allow-lists.

  The tables are the value `Users.Tables`. The database itself is the class
  `UserController.Database`, whose fields the handlers update. Each handler is a
  method proved against a pure function over `Tables` (`Resolve`, `SoftDelete`,
  `Update`, `LoadFriends`). The lemmas state the behaviour of those functions.
  GitHub is an oracle, `GitHub.Client`, that answers each request with a
  profile or a list, with "not found", or with a transport failure. The time of
  `CURRENT_TIMESTAMP` is a parameter `now`.
- **The front end's TTL cache.** This is the class `TtlCache.Cache`, a map from
  keys to `(data, timestamp)` entries. Reading an entry older than five minutes
  removes it.
- **The front end's view state machine.** This is the class `ExplorerApp.App`.
  It has the seven state fields of the top-level component and its four
  handlers. Each handler is proved against a transition function on the
  value `AppState`. A reachability lemma shows that every reachable state
  renders. In particular, outside the search view the user is always set, and in
  `repo-details` the selected repository is always set.

Where the code and its design description differ, the model follows the code:

- The friend list is `followers.filter(f => following.includes(f))`. It keeps
  the followers' order and any duplicates; it does not take a set
  intersection. `Friends.Mutual` states exactly this.
- In `getUserFriends`, when the subject has no row, the subject's profile is
  fetched only as an existence check. Nothing is inserted. The handler then
  answers 404 "User not found in database" (`LoadFriendsNoRow`).
- A new user is inserted under the profile's `login`, not under the requested
  path segment. When the two differ (GitHub matches names without regard to
  case), the first request inserts a row under the login. Every later request
  for the same path segment finds no row under that name, fetches the profile
  again and violates the unique constraint on `username`, answering 500
  (`ResolveLoginMismatch`).

## Model

| member | source | states |
|---|---|---|
| Users.InsertValid | backend/src/controllers/userController.ts:80-104 | Inserting a profile whose login has no row keeps the tables well formed: rows are keyed by their username, ids are unique and below the next id, and every friend edge joins two existing rows. The new row's id is the only new id. |
| Users.ReplaceValid | backend/src/controllers/userController.ts:25-59 | Overwriting an existing row with one of the same id and username keeps the tables well formed. |
| Users.RefreshedFields | backend/src/controllers/userController.ts:25-59 | A resurrected row is active. It carries the profile's twelve mirrored fields and its `updated_at`. It keeps its id, username and `created_at`. |
| Users.RefreshedForgetsStale | backend/src/controllers/userController.ts:25-59 | Resurrection does not depend on the stale mirrored fields of the deleted row. Two rows that differ only in those fields refresh to the same row. |
| Users.UpsertedFields | backend/src/controllers/userController.ts:182-186 | On a conflict, the friend upsert changes only `avatar_url`, `name` and `updated_at`. It keeps `deleted_at`, so a soft-deleted friend stays deleted. |
| Users.UpsertedLastWins | backend/src/controllers/userController.ts:182-186 | Upserting two profiles in a row is the same as upserting only the second one. |
| Users.UpsertedNewRow | backend/src/controllers/userController.ts:177-204 | Upserting over a row freshly inserted from the same profile changes nothing. |
| Friends.Mutual | backend/src/controllers/userController.ts:154 | A login is a friend iff it is both a follower and followed. The result is a subsequence of the followers list. Each friend occurs as many times as it occurs among the followers. |
| Friends.FriendsOf | backend/src/controllers/userController.ts:224-229 | The answer is exactly the active rows joined by an edge from the subject's id. |
| Friends.SyncFriendRows | backend/src/controllers/userController.ts:171-220 | One iteration keeps every key, id and `deleted_at`, changes no row other than the friend's, and only adds edges. An existing friend row changes only in `avatar_url`, `name` and `updated_at`: it becomes the upsert of the fetched profile. An absent friend is inserted with every field of the profile and the next id. |
| Friends.SyncFriendsRows | backend/src/controllers/userController.ts:170-221 | The whole loop keeps every existing key, id and `deleted_at`. Every existing row keeps every column except `avatar_url`, `name` and `updated_at`. Rows whose login is not the login of a fetched friend profile are untouched; the upsert is keyed by the profile's login, not by the listed name. The edge set only grows. |
| Friends.SyncFriendsHasEdge | backend/src/controllers/userController.ts:170-221 | After the loop, every friend whose profile fetch succeeded has a row and an edge from the subject. |
| Friends.SyncFriendsEdges | backend/src/controllers/userController.ts:209-215 | The edge set after the loop is the old set plus one edge to each successfully fetched friend. |
| Friends.SyncFriendsAppend | backend/src/controllers/userController.ts:170-221 | Syncing a concatenated list equals syncing the first part and then the second. |
| Friends.SyncFriendsSkipsFailure | backend/src/controllers/userController.ts:216-220 | A friend whose profile fetch fails is skipped and leaves the tables unchanged. The loop continues with the next friend. |
| Friends.SyncFriendsOverwrites | backend/src/controllers/userController.ts:182-186 | An earlier upsert of a row whose login the sync fetches again has no effect on the sync's result: the sync's own upsert overwrites it. |
| Friends.SyncFriendsIdempotent | backend/src/controllers/userController.ts:170-221 | Repeating the sync with the same GitHub answers changes nothing. |
| Friends.SyncFriendsValid | backend/src/controllers/userController.ts:170-221 | The sync keeps the tables well formed. |
| UserUpdate.PartialPush | backend/src/controllers/userController.ts:330-346 | When a body field is supplied, appending `column = $counter`, pushing its value and incrementing the counter keeps the placeholders aligned with the values. The SET list then covers that column. |
| UserUpdate.PartialSkip | backend/src/controllers/userController.ts:330-346 | When a body field is absent, its block leaves everything as it was, and the SET list still correctly omits that column. |
| UserUpdate.PushIfSupplied | backend/src/controllers/userController.ts:330-346 | One `if (field !== undefined)` block: a supplied column gets the next placeholder and its value is pushed; an absent one is skipped. The partial SET list stays well numbered. |
| UserUpdate.PartialDone | backend/src/controllers/userController.ts:348-352 | After the three blocks, pushing the username makes `$counter` its placeholder. |
| UserUpdate.BuildUpdate | backend/src/controllers/userController.ts:326-348 | The assignments name exactly the supplied columns, in the order location, blog, bio. Each assignment's placeholder indexes its own value. The last value is the username, at placeholder `counter`. |
| UserUpdate.ExecuteColumns | backend/src/controllers/userController.ts:349-355 | Executing the assignments changes only the assigned columns and `updated_at`. |
| UserUpdate.ExecuteBuilt | backend/src/controllers/userController.ts:326-355 | Running the built SET list gives the patched row. Supplied fields are set: `null` clears a field, a string replaces it. Absent fields are kept, and `updated_at` is now. |
| UserUpdate.PatchedFrame | backend/src/controllers/userController.ts:349-355 | A patch touches only location, blog, bio and `updated_at`. |
| UserController.GetUserByUsername | backend/src/controllers/userController.ts:5-121 | The handler keeps the tables well formed. Its answer and new state are those of the fetch-or-create function. |
| UserController.ResolveActive | backend/src/controllers/userController.ts:20-73 | An active row is answered as stored. GitHub is not consulted, and nothing is written. |
| UserController.ResolveMissing | backend/src/controllers/userController.ts:62-113 | With no active row and a GitHub 404, the answer is 404 "GitHub user not found". The tables are unchanged. |
| UserController.ResolveInserts | backend/src/controllers/userController.ts:76-106 | An absent username whose profile login also has no row inserts exactly one row, keyed by the profile's login and with a fresh id. That row is the answer. When the login already has a row, the INSERT violates the unique constraint and nothing is inserted (see `ResolveLoginMismatch`). |
| UserController.ResolveResurrects | backend/src/controllers/userController.ts:20-61 | A soft-deleted row is refreshed from the profile and reactivated. Its id and friend edges are kept. |
| UserController.ResolveValid | backend/src/controllers/userController.ts:5-121 | Fetch-or-create keeps the tables well formed. |
| UserController.ResolveIdempotent | backend/src/controllers/userController.ts:20-73 | Once a name has been answered with a row of that same name, asking again answers the same row and changes nothing. |
| UserController.ResolveLoginMismatch | backend/src/controllers/userController.ts:76-119 | When GitHub's login differs from the requested name, the first call inserts the row under the login. The next call for the same name collides with that row on the unique username and answers 500. |
| UserController.SoftDeleteUser | backend/src/controllers/userController.ts:275-308 | The handler keeps the tables well formed. Its answer and new state are those of the soft-delete function. |
| UserController.SoftDeleteEffect | backend/src/controllers/userController.ts:284-300 | Deleting succeeds iff the row is active. It then stamps `deleted_at` on that row only. Otherwise the answer is 404 and the tables are unchanged. |
| UserController.SoftDeleteTwice | backend/src/controllers/userController.ts:284-295 | A second delete answers 404 "User not found or already deleted". |
| UserController.DeleteThenResolve | backend/src/controllers/userController.ts:20-61 | Fetching a deleted user consults GitHub again and reactivates the same row, under the same id. |
| UserController.UpdateUser | backend/src/controllers/userController.ts:310-370 | The handler keeps the tables well formed. Its answer and new state are those of the update function, through the built SET list. |
| UserController.UpdateEffect | backend/src/controllers/userController.ts:320-362 | An empty patch gives 400, checked before the row is looked up. A missing or deleted user gives 404. Otherwise only that row changes, in its supplied fields and `updated_at`. |
| UserController.GetUserFriends | backend/src/controllers/userController.ts:123-242 | The handler keeps the tables well formed. Its answer and new state are those of the friend-sync function. |
| UserController.StoreFriends | backend/src/controllers/userController.ts:170-221 | The loop leaves the tables in the state of the sync over the friend list, and keeps them well formed. |
| UserController.LoadFriendsUnknownSubject | backend/src/controllers/userController.ts:131-146 | The answer is 404 "User not found" iff the subject has no active row and its profile fetch fails. |
| UserController.LoadFriendsNoRow | backend/src/controllers/userController.ts:148-165 | The answer is 404 "User not found in database" iff the subject passed the existence check and both lists were fetched, but no row at all (active or soft-deleted) has its name. |
| UserController.LoadFriendsFailureUnchanged | backend/src/controllers/userController.ts:123-242 | Every failing answer leaves the tables unchanged. |
| UserController.LoadFriendsEdges | backend/src/controllers/userController.ts:170-221 | On success, the new edges are exactly those from the subject to the friends that were fetched. Every fetched friend has a row. Every existing row keeps its id, its `deleted_at`, and every column except `avatar_url`, `name` and `updated_at`. |
| UserController.LoadFriendsAnswer | backend/src/controllers/userController.ts:223-231 | On success, every mutual friend whose profile was fetched has a row, and that row is in the answer iff it is active. |
| UserController.LoadFriendsIdempotent | backend/src/controllers/userController.ts:123-242 | Repeating the request with the same GitHub answers gives the same answer and changes nothing. |
| UserController.LoadFriendsValid | backend/src/controllers/userController.ts:123-242 | The friend request keeps the tables well formed. |
| Text.ContainsIff | backend/src/controllers/userController.ts:253-262 | The substring test behind `ILIKE '%q%'` holds iff the query occurs at some index of the text. |
| UserQueries.SearchUsers | backend/src/controllers/userController.ts:244-273 | A missing, empty or non-string query gives 400. Otherwise the answer is exactly the active rows whose username, location, name or company contains the query, ignoring case. |
| UserQueries.SearchIgnoresCase | backend/src/controllers/userController.ts:253-262 | Two queries that agree up to case give the same answer. |
| UserQueries.UsernameHitOccurs | backend/src/controllers/userController.ts:257 | The username test matches iff the lowered query occurs at some index of the lowered username. |
| UserQueries.GetSortedUsers | backend/src/controllers/userController.ts:372-419 | The listing succeeds iff the lowered field is allowed and the uppercased order is ASC or DESC. It then holds exactly the active rows. Its ORDER BY text is the lowered field, a space and the uppercased order, which is one of the allowed clauses. Otherwise the answer is 400. |
| UserQueries.SortDefaults | backend/src/controllers/userController.ts:374 | Without parameters, the listing is ordered by `username ASC`. |
| UserQueries.SortFoldsCase | backend/src/controllers/userController.ts:386-405 | Any spelling of the field whose lower-case form is allowed, together with any spelling of the order whose upper-case form is ASC or DESC, is accepted. The ORDER BY text uses the folded forms. |
| UserQueries.SortFoldsCaseExample | backend/src/controllers/userController.ts:386-405 | For example, `Followers` with `desc` sorts by `followers DESC`. |
| UserQueries.SortRejectsUnknownField | backend/src/controllers/userController.ts:386-395 | Every field whose lower-case form is outside the allow-list gives 400 "Invalid sort field", whatever the order. |
| UserQueries.SortRejectsUnknownOrder | backend/src/controllers/userController.ts:386-403 | An allowed field with an order whose upper-case form is neither ASC nor DESC gives 400 "Invalid sort order". |
| UserQueries.SortRejectsRepeatedField | backend/src/controllers/userController.ts:386-394 | A field given twice becomes a comma-joined string and is rejected with 400. |
| UserQueries.SearchWithinListing | backend/src/controllers/userController.ts:253-263 | Every search hit is a row of the listing. |
| TtlCache.Cache.Set | frontend/src/utils/cache.ts:9-17 | Stores the data under the key, stamped with now. No other key changes. |
| TtlCache.Cache.Get | frontend/src/utils/cache.ts:19-30 | Answers with the stored data while it is at most five minutes old. Otherwise the answer is null, and an expired entry is removed. |
| TtlCache.Cache.Clear | frontend/src/utils/cache.ts:32-34 | Removes every entry. |
| TtlCache.SetThenGet | frontend/src/utils/cache.ts:9-29 | Reading a key within five minutes of setting it gives back the data. |
| TtlCache.SetKeepsOthers | frontend/src/utils/cache.ts:9-17 | Setting one key does not change what another key answers. |
| TtlCache.GetMissing | frontend/src/utils/cache.ts:20-21 | A key never set answers null and changes nothing. |
| TtlCache.GetExpired | frontend/src/utils/cache.ts:24-27 | An entry more than five minutes old answers null and is removed. |
| TtlCache.ExpiryBoundary | frontend/src/utils/cache.ts:6-29 | An entry exactly five minutes old is still served. One millisecond later it is gone. |
| TtlCache.MissIsSticky | frontend/src/utils/cache.ts:19-27 | Once a read misses, every later read of that key misses too, until it is set again. |
| TtlCache.GetOnlyShrinks | frontend/src/utils/cache.ts:19-30 | A read never adds or changes an entry. At most, it removes the one it read. |
| TtlCache.ClearThenGet | frontend/src/utils/cache.ts:32-34 | After a clear, every key answers null. |
| ExplorerApp.App.constructor | frontend/src/App.tsx:11-17 | The component starts in the search view with no user, no lists, no selection, no error and not loading. |
| ExplorerApp.App.HandleSearch | frontend/src/App.tsx:19-35 | The new state is the search transition: on success, the user, the repositories and the `repos` view; on a throw, the error message. In both cases loading ends. |
| ExplorerApp.App.HandleViewFollowers | frontend/src/App.tsx:37-49 | Without a user, nothing changes. Otherwise the new state is the followers transition for that user's login. |
| ExplorerApp.App.HandleRepositoryClick | frontend/src/App.tsx:51-59 | Selects the repository with the user's avatar (or the empty string) and the three fixed categories. The view becomes `repo-details`. |
| ExplorerApp.App.HandleBack | frontend/src/App.tsx:61-74 | The new state is the back transition. |
| ExplorerApp.BackToRepos | frontend/src/App.tsx:63-67 | From the followers or details view, back returns to `repos` and drops the selection. Everything else is kept. |
| ExplorerApp.BackToSearch | frontend/src/App.tsx:68-72 | From `repos`, back returns to the search view. It clears the user and the repositories but keeps the followers list. Back in the search view changes nothing. |
| ExplorerApp.BackTwiceReachesSearch | frontend/src/App.tsx:61-74 | Two backs always reach the search view. From any other view, the user is then forgotten. |
| ExplorerApp.SearchOutcome | frontend/src/App.tsx:19-35 | A search ends not loading. It either shows the found user's repositories with no error, or keeps the view and shows the thrown message (or "An error occurred"). The followers list and the selection are untouched. |
| ExplorerApp.FollowersOutcome | frontend/src/App.tsx:37-49 | Without a user, nothing changes and no API is consulted. On success, the fetched list is shown and any earlier error message is kept, because this handler never clears it. On a throw, the view is kept and the message (or "Failed to fetch followers") is shown. Loading ends in both cases. |
| ExplorerApp.RepositoryClickOutcome | frontend/src/App.tsx:51-59 | After a click, the details view shows the clicked repository, with the user's avatar and the categories "Code review", "IDEs", "Free". |
| ExplorerApp.StepConsistent | frontend/src/App.tsx:76-109 | Every handler that the current view exposes keeps the state consistent: outside the search view there is a user, and `repo-details` has a selection. |
| ExplorerApp.RunRenders | frontend/src/App.tsx:76-109 | Every sequence of exposed events from a consistent state ends in a state that renders its view. |
| ExplorerApp.SessionsRender | frontend/src/App.tsx:76-109 | Every session that starts from the initial state renders its view after every step. |

## Left out

- UserQueries.GetSortedUsers: the listing is a set of rows with the ORDER BY clause the handler builds. The order in which PostgreSQL returns the rows under that clause and the database collation is not modelled.
- UserQueries.SearchUsers: ILIKE's own wildcards `%` and `_` inside the query are treated as literal characters. Case folding covers ASCII letters only; JavaScript's `toLowerCase`/`toUpperCase` and PostgreSQL's case folding of other scripts are not modelled.
- UserQueries.SortFoldsCase: for the same reason, case folding is ASCII only.
- UserQueries.GetSortedUsers: `toLowerCase` and `toUpperCase` are modelled on ASCII letters only. JavaScript folds some non-ASCII letters into ASCII ones; for example, `'ſ'.toUpperCase()` is `'S'`. So the handler accepts some spellings that the model refuses with 400: an order of `deſc` is accepted as `DESC`.
- UserController.LoadFriendsAnswer: the JOIN's rows are returned as a set. Their order is not modelled.
- Database failures are not modelled: a lost connection, a failed query, or a failed friend upsert or edge insert. The only database error modelled is the unique violation on `username`. Hence the generic 500 answers arise only from GitHub failures and from that unique violation. The GitHub failures are a transport failure of a profile fetch, and any failure, a 404 included, of the followers or following list in `getUserFriends`.
- Http.Response: an answer is a body or a status with its `error` text. The other fields of the JSON responses are dropped: `details` on every 500, `allowed_fields` and `allowed_values` on the two sort 400s, and `message` beside the deleted user in the delete's 200 (the user itself is the body).
- UserController.ResolveLoginMismatch: the unique constraint on `users.username` is assumed to compare case-sensitively, as a plain `VARCHAR UNIQUE` column does. The table definition is not part of this model.
- The `users.id` serial is modelled as a counter that advances on each insert. PostgreSQL also consumes serial values on failed and on conflicting inserts. Ids are therefore treated as opaque fresh values.
- The SQL text itself is not modelled. The SET list is the sequence of `(column, placeholder)` pairs it is built from, and queries are functions over the tables.
- The JSON body of the update is a string, `null` or absent for each field. Numbers, objects and other JSON values are not modelled.
- Query parameters given as nested objects (`sort_by[a]=b`) are not modelled. Repeated parameters are modelled as lists.
- `new Date(...)` parsing of GitHub timestamps is not modelled: timestamps are integers as GitHub gives them. The time of `CURRENT_TIMESTAMP` and of `Date.now()` is a parameter.
- GitHub pagination, rate limits, and the HTTP exchange of the GitHub client: the client is an oracle with three answers. It is a pure function, so within one request (and across the repeated requests of the idempotence lemmas) a login is always answered the same way. In particular, a friend listed twice is fetched twice with the same result. GitHub data changing between two fetches is not modelled.
- The repository endpoints, the routes, the configuration, the database setup script and the `Math.random` "verified" flag are not part of this model.
- TtlCache: `JSON.stringify`/`JSON.parse`, localStorage quota errors, entries written by other code or other tabs, and corrupt stored text are not modelled. `clear` empties the cache's own map.
- ExplorerApp: `Promise.all` over the user and repository requests is one outcome. The intermediate render while a request is awaited (`loading` true) is not modelled. Each handler runs to completion before the next event, so overlapping requests and React's batching are left out.
- ExplorerApp: the rendering components are not modelled beyond which handlers each view exposes.
- `console.error` logging is not modelled.
