# Verified model of the collaborative task and scheduling platform

This project models the parts of the platform whose correctness depends on more than one function at a time,
and proves properties of every run of them:

* **Sessions and token refresh.** The session table with rotation and reuse detection (`Sessions.dfy`,
  `AuthService.dfy`), the browser's single-flight refresh wrapper cut at its awaits (`ReauthClient.dfy`), and the two
  together in every interleaving of any number of requests (`RefreshProtocol.dfy`).
* **Tasks behind a cache.** Cache keys and glob patterns as strings (`TaskKeys.dfy`, `CacheStore.dfy`), the handlers
  without a cache as the reference (`TaskStore.dfy`), the cached handlers as a refinement of it (`TaskCache.dfy`), the
  service as code over both stores (`TaskService.dfy`), what callers are answered in terms of columns alone
  (`TaskAnswers.dfy`), and bounded staleness when handlers interleave and
  invalidations fail (`Staleness.dfy`). Pagination is in `Paging.dfy`.
* **Subtask hierarchy.** Which tables are reachable (`TaskForest.dfy`), the recursive query and the trees it spans
  (`Hierarchy.dfy`, `Subtasks.dfy`), and `buildTree` with node objects linked in place (`TreeBuilder.dfy`,
  `SubtaskService.dfy`).
* **Reminders.** The cron tick, the deduplication, the queue and the worker with its three attempts
  (`Reminders.dfy`, `ReminderService.dfy`).
* **Workspaces and projects.** Slug derivation (`Slugs.dfy`), the two cache keys of a workspace (`Workspaces.dfy`) and
  the cached list of active projects (`Projects.dfy`).

Stateful services are classes; each of their methods is proved equal to a function on an abstract state, and the
theorems about runs are lemmas about those functions.

## What the code does not do

Each of these is a theorem, with the condition under which the expected behaviour does hold.

* The refresh endpoint looks up *some* open session of the user, not the one holding the presented token. A current
  token is accepted whichever row comes back if and only if it belongs to the user's only open session
  (`CurrentTokenAcceptedIffOnlySession`). Since the browser's logout does not tell the server, logging in again leaves
  two open sessions and an honest refresh may raise the reuse alarm (`SecondLoginRaisesAlarm`).
* A reply lost after the server rotated is harmless while the page lives: its waiters remove the stale token before
  any other task is handled (`SingleFlightIsSafe`). A page reload forgets the waiters, though. Every continuation of a
  reload is free of alarms if and only if the reload is not risky: it is risky when a token is stored and a session of
  the user is open that expects another token, or will once a refresh call still on its way is processed
  (`ReloadSafeIff`). After a risky one, ordinary steps raise the alarm (`RiskyReloadRaisesAlarm`,
  `ReloadInFlightRaisesAlarm`).
* Two list queries can share a cache key although they ask for different pages: when a filter spells out the word used
  for its absence (`SentinelCollision`, `SentinelPoisonsList`), or when what stands between two colons of a text field
  is itself a field label (`ColonCollision`). For a query without colons, or whose colons spell out no label, the
  exact condition is `SharedKeyMeaning`.
* The version check reads a possibly cached copy. With a working cache no update is lost
  (`CachedConditionalUpdate`). In any store, every accepted version is the row's if and only if the copy served has
  the row's version (`VersionCheckSoundIff`), and every accepted update builds on the stored row if and only if that
  copy has the row's content (`UpdateBuildsOnRowIff`); after one failed invalidation neither need hold
  (`FailedInvalidationLosesUpdate`).
* A subtask may be created in a different workspace than its parent. The descendant list filters only the direct
  subtasks by workspace, so it equals the tree without its root if and only if none of them is foreign
  (`DescendantsAreTreeIffSameWorkspace`).
* The ancestor query, documented as the path to the root, walks down from the parent (`AncestorQueryWalksDown`).
* Deleting a task hides its subtasks from every tree above it although they stay live and listed
  (`DeleteHidesSubtree`).
* Comments speak of one reminder per milestone; the deduplication ignores the milestone, so there is one per due date
  (`AtMostOneReminder`). There is one if and only if some tick met the task inside a window (`RemindedIffHit`). The
  windows leave gaps between milestones, so ticks at most an hour and a millisecond apart suffice
  (`ExactlyOneReminder`), and no wider spacing does (`SlowTicksMiss`).

## Assumptions

* Every signing gives a distinct token, hashing is injective, and a token verifies exactly when the server signed it
  and its `exp` claim (section 4.1.4 of RFC 7519) lies in the future. The rotation scheme is the one of section 4.14.2
  of RFC 9700.
* A handler that checks and then saves runs as one step, except in `Staleness.dfy`, where database reads, cache fills,
  writes, expiry and invalidations are separate steps.
* The refresh protocol: one browser tab; a login happens only while no refresh is under way and no session of the user
  is open; no reload is risky in the sense above; nobody else logs in or refreshes as this user. Revocations from
  elsewhere, other users, calls lost before the server acts and replies lost after it, other reloads and the calls
  they leave behind, and arbitrary 401s are all included. A resolved promise resumes its waiters before the next task
  of the browser.
* The exact cache theorems: ids contain neither colons nor glob characters; list queries do not contain the words
  `all` and `none` in the place of a filter, and either contain no colon or no field label between colons; and Redis
  answers. Cascading removals are in `Staleness.dfy` and
  `TaskForest.dfy` only, because they do not touch task keys.
* `@VersionColumn` advances by one on each save that changes the row. The database returns one and the same order
  for the same rows, and full-text search is an arbitrary predicate on search text, title and description.
* Recursive queries follow the working-table evaluation of section 7.8.2 of the PostgreSQL 15 manual.
* One clock, read once per cron tick.

## Model

| member | source | states |
|---|---|---|
| Sessions.RefreshRotates | src/modules/auth/auth.service.ts:167-181 | a successful refresh retires the presented token, stores a brand-new one with its expiry in the picked session, and touches no other session |
| Sessions.UnverifiedTokenIsInert | src/modules/auth/auth.service.ts:130-138 | an expired or foreign token is refused as such and changes nothing: no rotation, no revocation, no alert |
| Sessions.VerifiedTokenOutcomes | src/modules/auth/auth.service.ts:140-187 | for a genuine, unexpired token which outcome occurs when, on the columns of the picked row; reuse revokes the user's rows and no others |
| Sessions.ExpiredSessionStaysPut | src/modules/auth/auth.service.ts:133-181 | over every run a session whose expiry has passed at each refresh is never rotated again |
| Sessions.LoginOpensOneSession | src/modules/auth/auth.service.ts:62-115 | a wrong password yields no tokens and changes nothing; the right one adds one row holding a brand-new token for its lifetime |
| Sessions.LogoutTouchesOwn | src/modules/auth/auth.service.ts:117-128 | a row is closed by a logout iff it was closed before or holds that token for that user |
| Sessions.RevokeTouchesOwn | src/modules/auth/auth.service.ts:189-199 | only the owner can revoke a session, and only the named one; for anybody else it is an error without effect |
| Sessions.OthersCannotTouch | src/modules/auth/auth.service.ts:62-200 | over every run a row changes only by events in the name of its own user |
| Sessions.DeadForever | src/modules/auth/auth.service.ts:62-200 | a token no open session holds stays so in every run of login, refresh, logout and revoke |
| Sessions.RevocationIsPermanent | src/modules/auth/auth.service.ts:152-156 | a revoked session stays revoked, and stays its user's, in every run |
| Sessions.LockedOutUntilLogin | src/modules/auth/auth.service.ts:86-95 | a user without open sessions has none until a login of that user succeeds |
| Sessions.DeadTokenIsRefused | src/modules/auth/auth.service.ts:143-165 | presenting a dead token fails; before its expiry it closes every session of the user and, if one was open, raises one alert |
| Sessions.LogoutClosesOneSession | src/modules/auth/auth.service.ts:117-128 | logout kills the token and closes its session and no other session of any user |
| Sessions.KilledIsDead | src/modules/auth/auth.service.ts:117-200 | exchange, logout and revocation each make the token dead |
| Sessions.KilledTokenNeverReturns | src/modules/auth/auth.service.ts:130-187 | over any run before, between and after: an exchanged, logged-out or revoked token never refreshes again, and presenting it before expiry locks the user out until the next login |
| Sessions.CurrentTokenAcceptedIffOnlySession | src/modules/auth/auth.service.ts:143-152 | a current token is accepted for every row the lookup may return iff its session is the user's only open one |
| Sessions.SecondLoginBreaksFirst | src/modules/auth/auth.service.ts:87-95 | two logins, then a refresh of the first: the alarm may close both sessions |
| AuthServices.AuthService.DoLogin | src/modules/auth/auth.service.ts:62-115 | login as code: its whole effect on the session table, nothing on bad credentials |
| AuthServices.AuthService.FindUnrevoked | src/modules/auth/auth.service.ts:143-145 | the lookup returns some open session of the user, and nothing only if there is none |
| AuthServices.AuthService.DoRefresh | src/modules/auth/auth.service.ts:130-187 | refresh as code, for every row the lookup may return: result and whole new state, including the reuse branch |
| AuthServices.AuthService.DoLogout | src/modules/auth/auth.service.ts:117-128 | logout as code: its one row is all it changes |
| AuthServices.AuthService.DoRevokeSession | src/modules/auth/auth.service.ts:189-200 | revocation by id as code, an error for another user's session |
| ReauthClient.ReplyOutcome | frontend/src/app/api/apiSlice.ts:79-137 | only a first 401 with a stored refresh token keeps a request going; any other reply finishes it with just that result, and only a first 401 without one clears credentials |
| ReauthClient.RefreshReplyOutcome | frontend/src/app/api/apiSlice.ts:98-117 | the call's promise resolves with the access token received, which with its refresh token replaces the credentials, or with nothing and no change |
| ReauthClient.ApiClient.constructor | frontend/src/app/store/slices/authSlice.ts:18-22 | a loaded page starts from the stored credentials, with slice and storage in agreement and no refresh shared |
| ReauthClient.ApiClient.Start | frontend/src/app/api/apiSlice.ts:20-50 | a request goes out with the access token of the slice and changes nothing else |
| ReauthClient.ApiClient.HandleReply | frontend/src/app/api/apiSlice.ts:79-121 | the code from a reply to the next await: start or join the shared refresh on a 401, log out without a stored token, pass anything else through |
| ReauthClient.ApiClient.HandleRefreshReply | frontend/src/app/api/apiSlice.ts:98-117 | the refresh closure after its call: credentials stored, promise cleared and resolved |
| ReauthClient.ApiClient.Resume | frontend/src/app/api/apiSlice.ts:123-131 | a waiter retries once with the current token or logs out |
| ReauthClient.ApiClient.DispatchLogout | frontend/src/app/store/slices/authSlice.ts:48-56 | logout clears slice and browser storage together |
| ReauthClient.ApiClient.DispatchSetCredentials | frontend/src/app/store/slices/authSlice.ts:28-41 | the access token enters slice and storage together |
| RefreshProtocol.RotationMatches | src/modules/auth/auth.service.ts:143-181 | if the token in flight is the one the server expects, the reuse branch is not taken and a rotation leaves the new token as the expected one |
| RefreshProtocol.ServerKeepsInv | src/modules/auth/auth.service.ts:152-181 | when the server handles a refresh of the honest client it never takes the reuse branch |
| RefreshProtocol.RunKeepsInv | frontend/src/app/api/apiSlice.ts:72-138 | the coupling invariant of client, calls in flight and server holds over every run |
| RefreshProtocol.SingleFlightIsSafe | frontend/src/app/api/apiSlice.ts:72-138 | in every run, lost replies included: at most one refresh outstanding, the stored token is the one every open session expects when none is and no waiter is due, no alarm for this user, no stranded waiter |
| RefreshProtocol.UnsharedRefreshRaisesAlarm | frontend/src/app/api/apiSlice.ts:85-121 | a second refresh with the same token after a successful one always raises the alarm, so sharing is necessary |
| RefreshProtocol.WaitersShareTheOutcome | frontend/src/app/api/apiSlice.ts:98-131 | after the shared refresh has settled every waiter, the last as the first, retries with its token if it succeeded and logs out if it failed |
| RefreshProtocol.ReplyDecidesWaiters | frontend/src/app/api/apiSlice.ts:98-131 | from the reply on: a successful refresh sends each waiter on with the token received and keeps both tokens, a failed one logs out |
| RefreshProtocol.AtMostOneRetry | frontend/src/app/api/apiSlice.ts:79-137 | whatever is answered, a request is sent at most twice and a finished one is never touched again |
| RefreshProtocol.FinishesWithLastReply | frontend/src/app/api/apiSlice.ts:79-137 | over every run a finished request hands its caller the last reply it received itself, the first 401 when the refresh failed |
| RefreshProtocol.ReloadSafeIff | frontend/src/app/api/apiSlice.ts:72-130 | after any run, every continuation of a page reload is free of alarms iff no open session expects another token than the stored one, now or after a refresh call still on its way |
| RefreshProtocol.RiskyReloadRaisesAlarm | frontend/src/app/api/apiSlice.ts:82-121 | after a risky reload a run of ordinary steps raises the alarm and closes every session of the user |
| RefreshProtocol.ReloadInFlightRaisesAlarm | frontend/src/app/api/apiSlice.ts:72-109 | a concrete run from a first login: reload while the rotated reply is under way, then the next 401 raises the alarm |
| RefreshProtocol.SecondLoginRaisesAlarm | frontend/src/components/layout/Navbar.tsx:60 | a run in which logout and login again lead an honest refresh into the alarm |
| CacheStore.LiteralStarIsPrefix | src/modules/cache/cache.service.ts:60-65 | a glob-free text followed by a star matches exactly the keys it is a prefix of |
| CacheStore.CacheService.Get | src/modules/cache/cache.service.ts:31-40 | a hit is a stored, unexpired value; a failing Redis reads as a miss |
| CacheStore.CacheService.Set | src/modules/cache/cache.service.ts:42-49 | stores value and expiry, or nothing when Redis fails |
| CacheStore.CacheService.Del | src/modules/cache/cache.service.ts:51-57 | removes one key, or nothing when Redis fails |
| CacheStore.CacheService.DelPattern | src/modules/cache/cache.service.ts:60-78 | for any batching with repetitions: only matching keys go, and all of them if no batch fails |
| TaskKeys.JoinInjective | src/modules/task/task.service.ts:50 | colon-free fields can be read back from a key, even against unknown fields |
| TaskKeys.WovenInjective | src/modules/task/task.service.ts:50 | fields in which no label stands between colons can be read back from a key, even against unknown fields |
| TaskKeys.SharedKeyMeaning | src/modules/task/task.service.ts:45-51 | a query without colons, or whose colons spell out no label, shares its key only within its project, numbers and order, and then denotes the same page iff both queries restrict the same columns |
| TaskKeys.SaneKeysAreExact | src/modules/task/task.service.ts:45-51 | without sentinel words, and without colons or labels between them, one key is one page of one project |
| TaskKeys.SentinelCollision | src/modules/task/task.service.ts:50 | filtering by the word all shares the key of the unfiltered list |
| TaskKeys.ColonCollision | src/modules/task/task.service.ts:50 | with a colon in a field two different pages share a key |
| TaskKeys.PatternHitsExactlyOwnLists | src/modules/task/task.service.ts:41-43 | a project's pattern matches each of its own list keys and no list key of another project |
| TaskKeys.TaskKeysAreDistinct | src/modules/task/task.service.ts:37-43 | task keys are injective, differ from list keys and are spared by patterns |
| Paging.PagesPartitionRows | src/modules/task/task.service.ts:172-185 | pages 1 to totalPages concatenate to the rows, exactly those are nonempty, none exceeds the limit |
| TaskCache.PagesShowEachTaskOnce | src/modules/task/task.service.ts:163-185 | walking all pages of an unchanged list shows each selected task exactly once |
| TaskAnswers.ListAnswers | src/modules/task/task.service.ts:130-185 | on the raw query and the columns: total counts exactly the live rows of the project that meet each filter named, and items are the page asked for, of those rows in the order asked for, with the defaults 1, 10, creation time and DESC |
| TaskAnswers.CreateAnswers | src/modules/task/task.service.ts:73-120 | which outcome occurs when, the new row column by column with its defaults, the activity, and that the answer is the stored row |
| TaskAnswers.UpdateAnswers | src/modules/task/task.service.ts:233-338 | not found, conflict, failing save and failing notification each occur exactly when the columns say so and the first three change nothing; otherwise each column is the one named or as before, and the answer is the stored row |
| TaskAnswers.DeleteAnswers | src/modules/task/task.service.ts:349-384 | likewise for deletion |
| TaskAnswers.CachedAnswers | src/modules/task/task.service.ts:53-384 | after every run the service with the cache answers any next request in just that way |
| TaskStore.ConditionalUpdate | src/modules/task/task.service.ts:245-276 | an update carrying a version that changes the row saw exactly that version and was computed from its content |
| TaskStore.NoLostUpdate | src/modules/task/task.service.ts:244-249 | in every run at most one update carrying a given version of a task changes its row |
| TaskStore.SaveBuildsOnRowIff | src/modules/task/task.service.ts:233-276 | working on a copy read earlier, every accepted update amounts to the request applied to the stored row iff the copy still has the row's content |
| TaskStore.StepCompletion | src/modules/task/task.service.ts:252-258 | one step enters DONE exactly when it logs a completion, and then stamps its time |
| TaskStore.CompletionLedger | src/modules/task/task.service.ts:252-333 | over every run completions logged equal entries into DONE, and completedAt is set iff DONE and holds the latest entry |
| TaskStore.SavedUpdateLogsOnce | src/modules/task/task.service.ts:292-333 | an update that saves logs exactly one activity, whose kind tells the transition |
| TaskStore.UpdateEstablishesRequest | src/modules/task/task.service.ts:260-276 | an accepted update makes every named field true, changes row and version iff it was not already, and repeating it changes nothing |
| TaskStore.DisjointPatchesCommute | src/modules/task/task.service.ts:252-273 | updates of different fields commute |
| TaskStore.FixedColumns | src/database/entities/task.entity.ts:22-52 | no handler changes id, workspace, project, parent, creator or creation time of a row |
| TaskStore.CreatedTaskIsServed | src/modules/task/task.service.ts:73-120 | a created task is found with what was given and defaults elsewhere, joins exactly the lists it qualifies for, also when the notification fails |
| TaskStore.DeletedTaskIsGone | src/modules/task/task.service.ts:349-357 | a deleted task is not found and leaves all lists; deleting again is an error that changes nothing |
| TaskStore.StatusListsPartition | src/modules/task/task.service.ts:130-139 | lists show only live tasks of the project, and the status lists partition the unfiltered one |
| TaskCache.FindByIdIsLookup | src/modules/task/task.service.ts:192-210 | with coherent entries a cached read returns what the database would, and keeps coherence |
| TaskCache.GetTasksIsList | src/modules/task/task.service.ts:123-190 | likewise for list pages |
| TaskCache.WriteKeepsCoherence | src/modules/task/task.service.ts:278-282 | after writing one row, dropping its key and its project's list keys leaves only right entries |
| TaskCache.UpdateIsTransparent | src/modules/task/task.service.ts:212-347 | a cached update has the response and effect of an uncached one |
| TaskCache.DeleteIsTransparent | src/modules/task/task.service.ts:349-363 | a cached delete has the response and effect of an uncached one |
| TaskCache.SecondReadIsCached | src/modules/task/task.service.ts:123-210 | a task or page once read is answered again without asking the database |
| TaskCache.WritesSpareOthers | src/modules/task/task.service.ts:278-282 | a write keeps every other task's entry and the pages of every other project in the cache |
| TaskCache.CreateIsTransparent | src/modules/task/task.service.ts:53-121 | a cached create has the response and effect of an uncached one, also when it throws after the save |
| TaskCache.CacheIsTransparent | src/modules/task/task.service.ts:53-384 | every run with the cache gives the same responses, rows and activities as without it, and stays coherent |
| TaskCache.ReachableIsCoherent | src/modules/task/task.service.ts:53-384 | in every reachable state each cached task is its live row and each cached list a fresh evaluation of its query |
| TaskCache.NoLostUpdateThroughCache | src/modules/task/task.service.ts:233-249 | at most one update per version takes effect although the check reads a cached copy |
| TaskCache.CachedConditionalUpdate | src/modules/task/task.service.ts:233-276 | after any run, a versioned update through the cache that changes the table saw exactly the row's version and was computed from its content |
| TaskCache.VersionCheckSoundIff | src/modules/task/task.service.ts:233-249 | in any store, coherent or not, every accepted versioned update carries the row's version iff the copy served has the row's version |
| TaskCache.UpdateBuildsOnRowIff | src/modules/task/task.service.ts:233-276 | in any store, every accepted update leaves the row as the request applied to the stored row iff the copy served has the row's content |
| TaskCache.UpdateRestoresGoneRow | src/modules/task/task.service.ts:233-276 | updating a cached copy whose row is gone stores the task anew as version 1 with the columns of the copy |
| TaskCache.FailedInvalidationLosesUpdate | src/modules/cache/cache.service.ts:51-57 | one swallowed deletion failure lets a second update with the same version write old content back |
| TaskCache.SentinelPoisonsList | src/modules/task/task.service.ts:124-128 | after a query for status all the plain list is served empty |
| TaskServices.TaskService.TimePasses | src/modules/cache/cache.service.ts:42-49 | between two handlers the cached state only loses expired keys, as an expiry event of the runs does |
| TaskServices.TaskService.DoFindById | src/modules/task/task.service.ts:192-210 | the read handler as code; a fill lasts 300 s |
| TaskServices.TaskService.DoGetTasks | src/modules/task/task.service.ts:123-190 | the list handler as code: from a coherent cache exactly the rows the query asks for; a fill lasts 300 s |
| TaskServices.TaskService.DoCreateTask | src/modules/task/task.service.ts:53-121 | the create handler as code, all failure exits included |
| TaskServices.TaskService.DoUpdateTask | src/modules/task/task.service.ts:212-347 | the update handler as code, all failure exits included; it answers with the stored row |
| TaskServices.TaskService.ApplyDto | src/modules/task/task.service.ts:251-273 | the step-by-step field assignments amount to the patch |
| TaskServices.TaskService.DoDeleteTask | src/modules/task/task.service.ts:349-384 | the delete handler as code |
| Staleness.StepKeepsInv | src/modules/cache/cache.service.ts:42-78 | through any step, failed invalidations and cascades included, each entry stems from a database content recent enough for its expiry |
| Staleness.ServedIsRecent | src/modules/task/task.service.ts:123-210 | in every run a served task or list is what the database held less than 300 s plus the read-to-fill delay ago |
| Staleness.BoundIsTight | src/modules/cache/cache.service.ts:42-49 | a run in which a row removed by a cascade is served to the last second of that bound |
| TaskForest.CascadeKeepsInv | src/database/entities/task.entity.ts:47-52 | removing rows with everything below them leaves no dangling parent |
| TaskForest.CascadeExact | src/database/entities/task.entity.ts:47-52 | a cascade removes a row iff the row or an ancestor at any distance is removed, and changes no other row |
| TaskForest.RunKeepsInv | src/modules/task/task.service.ts:73-88 | over every run of handlers and cascades, parents exist and were created before their children |
| TaskForest.ReachableTablesAreForests | src/database/entities/task.entity.ts:43-52 | every reachable table has no dangling parent and no row that is its own ancestor at any distance |
| TaskForest.ParentsNeverChange | src/modules/task/task.service.ts:266-276 | no step moves a surviving row to another parent |
| TaskForest.OlderParentsKept | src/modules/task/task.service.ts:73-88 | with increasing creation times every parent is older than its children |
| Hierarchy.RecursiveIsBelow | src/modules/subtask/subtask.service.ts:38-48 | the recursive evaluation ends and returns exactly the rows below its starting rows, each once despite UNION ALL |
| Hierarchy.PreorderIsBelow | src/modules/subtask/subtask.service.ts:114-144 | the tree's preorder lists exactly the rows below the root, each once |
| Hierarchy.TreeLinksAreParents | src/modules/subtask/subtask.service.ts:134-141 | the parent-child pairs of the tree are exactly the parent columns of the rows below the root |
| Hierarchy.RowOrderOnlyOrdersSiblings | src/modules/subtask/subtask.service.ts:114-144 | two row orders give the same nodes and links; at every node the children are that row's subtasks in row order |
| Subtasks.DescendsIsLivePath | src/modules/subtask/subtask.service.ts:43-48 | lying below a task means: some number of parent links leads there from live row to live row |
| Subtasks.TreeRowsExact | src/modules/subtask/subtask.service.ts:36-51 | on every reachable table the tree query returns exactly the live rows reachable through live parents, each once |
| Subtasks.DescendantRowsExact | src/modules/subtask/subtask.service.ts:66-83 | the descendant query returns exactly the live rows below the direct subtasks of the workspace, each once |
| Subtasks.DescendantsAreTreeIffSameWorkspace | src/modules/subtask/subtask.service.ts:57-83 | tree minus root and descendant list are the same multiset iff every live direct subtask is in the workspace |
| Subtasks.ListedParentsFirst | src/modules/subtask/subtask.service.ts:80 | ordered by creation time the list puts parents before children when parents are older |
| Subtasks.AncestorQueryWalksDown | src/modules/subtask/subtask.service.ts:98-109 | the ancestor query returns the parent's subtree, always with the task itself and never with the grandparent |
| Subtasks.CreateGrowsTrees | src/modules/task/task.service.ts:78 | a created task joins exactly the trees containing its parent |
| Subtasks.DeleteHidesSubtree | src/modules/task/task.service.ts:357 | a deleted task takes its subtree out of every tree above it and changes no other tree |
| Subtasks.UpdateKeepsTrees | src/modules/task/task.service.ts:266-276 | updates change no tree |
| TreeBuilder.KeysInFirstSeenOrder | src/modules/subtask/subtask.service.ts:115-117 | the map iterates over its ids in the order of their first rows |
| TreeBuilder.RowOfIsLast | src/modules/subtask/subtask.service.ts:117-129 | of several rows with one id the last one counts |
| TreeBuilder.FillMap | src/modules/subtask/subtask.service.ts:115-130 | one fresh node per id in first-seen order, holding the last row of that id |
| TreeBuilder.Attach | src/modules/subtask/subtask.service.ts:138-140 | a task is pushed onto its parent's list if the parent is among the rows |
| TreeBuilder.BuildTree | src/modules/subtask/subtask.service.ts:114-144 | for any rows: each node's children are exactly the nodes naming it, in row order; null without a root row |
| TreeBuilder.LinkedIsTree | src/modules/subtask/subtask.service.ts:132-143 | for acyclic rows the linked objects are a finite tree, node for node |
| SubtaskServices.TreeOfRows | src/modules/subtask/subtask.service.ts:36-53 | the tree built from the query's rows is the task's tree in terms of the table, its preorder a permutation of the rows |
| SubtaskServices.RepresentationShows | src/modules/subtask/subtask.service.ts:117-129 | every node of the tree shows its task column by column |
| SubtaskServices.GetTaskTree | src/modules/subtask/subtask.service.ts:22-54 | not found iff the task is not visible in the workspace, else fresh objects forming the tree of all live rows below it, each showing its row's columns |
| Reminders.TickKeepsInv | src/modules/scheduler/scheduler.service.ts:30-103 | a tick leaves at most one job per task and due date, changes nothing existing, and every due task has a reminder after it |
| Reminders.ExactlyOneReminder | src/modules/scheduler/scheduler.service.ts:18-104 | with ticks at most an hour and 1 ms apart a task due through its last hour gets exactly one reminder and one job, queued for its assignee inside the milestone's window |
| Reminders.TickQueues | src/modules/scheduler/scheduler.service.ts:46-96 | every job a tick adds is new and names a live, unfinished task of that tick, its assignee, its due date and a milestone whose window fits |
| Reminders.JobsServeAssignees | src/modules/scheduler/scheduler.service.ts:82-92 | over every run each job was queued by some tick for the assignee it found then |
| Reminders.AtMostOneReminder | src/modules/scheduler/scheduler.service.ts:62-71 | never more than one reminder or job per task and due date, over all ticks and milestones |
| Reminders.RemindedIffHit | src/modules/scheduler/scheduler.service.ts:30-103 | over every run that does not remove the task, there is a reminder for a due date iff there was one or some tick found the task live, unfinished, assigned and due then, with the time left in one of the four windows |
| Reminders.SlowTicksMiss | src/modules/scheduler/scheduler.service.ts:33-44 | for every due date and every spacing wider than an hour and 1 ms, some ticks with that spacing miss it |
| Reminders.AttemptEffect | src/workers/reminder.worker.ts:29-57 | an attempt ends the job and marks the reminder SENT iff task lookup, delivery and write all succeed, else FAILED if that can be written; it adds a notification iff one was stored, and nothing else changes |
| Reminders.DeliveryRecord | src/workers/reminder.worker.ts:20-58 | over every run a job is done iff one of its attempts succeeded, which is then its last; it has at most three, and as many notifications as attempts that stored one |
| Reminders.RemovalIsFinal | src/database/entities/reminder.entity.ts:19 | a removed task takes its reminders along and never gets another; other tasks' reminders stay |
| Reminders.NotificationBounds | src/workers/reminder.worker.ts:20-58 | over all attempts a SENT reminder has a stored notification and none causes more than three |
| Reminders.SentIsFinal | src/workers/reminder.worker.ts:44 | a SENT reminder never changes status again |
| Reminders.StatusFollowsLastAttempt | src/workers/reminder.worker.ts:48-57 | while FAILED writes succeed, the status is PENDING, SENT or FAILED according to the last attempt |
| ReminderServices.SchedulerService.CheckDueTasks | src/modules/scheduler/scheduler.service.ts:19-104 | the nested loops as code amount to one tick |
| ReminderServices.SchedulerService.RemindOne | src/modules/scheduler/scheduler.service.ts:62-96 | the deduplicating body of the inner loop |
| ReminderServices.ReminderWorker.DoProcess | src/workers/reminder.worker.ts:20-58 | one attempt as code, catch path included |
| Slugs.SlugIsDashedWords | src/modules/workspace/workspace.service.ts:46-51 | the derived slug is the name's maximal runs of letters and digits joined by single dashes |
| Slugs.SlugsAreStable | src/modules/workspace/workspace.service.ts:46-51 | derived slugs are well shaped, keep the words of the name, and are unchanged by deriving again |
| Slugs.SlugKeepsLetters | src/modules/workspace/workspace.service.ts:48-51 | a slug keeps every letter a-z and digit of the lowered name in order and adds only dashes |
| Slugs.FixedIffShaped | src/modules/workspace/workspace.service.ts:48-51 | the derivation fixes exactly the well-shaped strings |
| Workspaces.DropKeepsCoherence | src/modules/workspace/workspace.service.ts:154-156 | dropping both keys of a changed or removed row leaves every entry right, because slugs are unique and immutable |
| Workspaces.WorkspaceService.CreateWorkspace | src/modules/workspace/workspace.service.ts:40-100 | a taken slug is refused, otherwise the row is added under the given or derived slug; uniqueness and coherence kept |
| Workspaces.WorkspaceService.FindById | src/modules/workspace/workspace.service.ts:102-121 | the answer is the database row, cached or not; a fill lasts an hour |
| Workspaces.WorkspaceService.FindBySlug | src/modules/workspace/workspace.service.ts:123-141 | the answer is the one row with that slug, cached or not; a fill lasts an hour |
| Workspaces.WorkspaceService.UpdateWorkspace | src/modules/workspace/workspace.service.ts:143-165 | only the name of that row changes, and nothing if the save fails; every cached entry stays right |
| Workspaces.WorkspaceService.DeleteWorkspace | src/modules/workspace/workspace.service.ts:167-179 | only that row goes, and nothing if the removal fails; every cached entry stays right |
| Projects.DropKeepsCoherence | src/modules/project/project.service.ts:105-106 | dropping one workspace's list after changing one of its projects leaves all other lists right |
| Projects.ProjectService.GetProjects | src/modules/project/project.service.ts:58-72 | always the current projects of the workspace with status ACTIVE, each once, and cached for 300 s |
| Projects.ProjectService.CreateProject | src/modules/project/project.service.ts:25-56 | adds one ACTIVE row, or nothing if the save fails, and keeps every cached list right |
| Projects.ProjectService.UpdateProject | src/modules/project/project.service.ts:84-128 | changes the named fields of a project of the workspace only, and nothing if the save fails; lists stay right |
| Projects.ProjectService.DeleteProject | src/modules/project/project.service.ts:130-153 | removes a project of the workspace only, and nothing if the removal fails; lists stay right |

## Left out

- The socket listener registry (`socketService.ts`): it would only add easy members.
- JSON encoding of cached values (dates become strings) and the joined assignee, creator and owner objects: plain
  columns only.
- Interleaving inside one update or one refresh handler: runs take handlers as atomic; what a save from an outdated copy
  does, however it got outdated, is `SaveBuildsOnRowIff`.
- Other foreign keys than the parent: their violation is one of the reasons for a failing save.
- A failing enqueue or database call in the middle of a cron tick, which aborts the tick after a row was saved.
- Local-time arithmetic across daylight-saving changes in the reminder windows.
- Unicode lower-casing of workspace names: the slug theorems hold for any lower-cased text.
- Bracket classes in Redis patterns: none is ever built from ids without glob characters.
- Display data in the browser's credential slice (user record, active workspace) and failing browser storage.
- Insertion of the membership row with a workspace, invitations, and members: no property beyond the insert.
- The audit log apart from the reuse alert, realtime events, notification contents, queue back-off times.
- Guards, interceptors, comments, dashboard, metrics, health checks, file storage, seeding and all pages of the front
  end.
- Expiry of access tokens: a 401 may come at any time for any reason, which covers it.
