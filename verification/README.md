# Verdaccio protocol models

This project models the stateful protocols of a package registry in Dafny and proves what each of them keeps over
whole runs. `dafny verify dfyconfig.toml` checks it.

| module | what it models |
|---|---|
| `MutationQueue` | the promise chain that serialises mutations of one user or of the stage index |
| `StageStorage`, `StageRuns`, `StageQueue` | staged publishing: add, remove, approve and reject, every storage operation a step that may fail; each call undisturbed; and the stage index as a run of `MutationQueue` |
| `TfaStore` | the two-factor record: enrolment, lockout, replay protection, recovery codes |
| `SearchPages`, `RankedSearch`, `SearchHandler`, `SearchService` | the search pager, the merged and ranked list above it, the batched access filter above that, and the page all three serve together |
| `LegacyAuth` | the LRU cache with expiry, its copies of users, and the single flight of legacy token authentication |
| `Versions`, `Manifests`, `PackageStore`, `PublishRuns` | a package's manifest: publish with rollback, dist-tags, unpublish, deprecation, retention, uplink merge |
| `SetupLink` | the one-shot setup link, claimed by a file rename, and when an issued link survives |
| `OidcState` | expiring login state and its background sweeper |
| `Htpasswd` | the password file as text, against a map |
| `IpUtils` | IPv4 range matching in 32-bit arithmetic, against division |

Step machines (`MutationQueue`, `StageStorage`, `SetupLink`, the request side of `LegacyAuth`) take a list of actions;
an action that is not enabled leaves the state as it is, so a statement about every list of actions is a statement
about every interleaving. Objects the program updates in place are classes whose methods are proved equal to a
function on their contents; the lemmas are about that function. Clocks, random values, hashes, TOTP matching, the
semver library and the answers of uplinks are arguments.

Where the code does not do what one would expect of it, the model keeps the code and a lemma states exactly when it does:

- `TfaStore.LastCodeAgain`, `TfaStore.MatchUsedTwice`: one verification reads the clock once to match a code and once
  to compute its step, so a code can be accepted twice when a 30 second period ends in between (section 5.2 of
  RFC 6238 asks for use once). `TfaStore.AcceptedCodeAgain` has the exact condition, a clock that is set back included.
- `TfaStore.RecordIsLost`: saving deletes the old record before it stores the new one, so a failing save can leave an
  enrolled user without a second factor.
- `PublishRuns.PublishIsAllOrNothing`, `PublishRuns.StoredTarballIsLost`: undoing a failed publish deletes the tarball
  of the given name even when it was stored before, and drops an attachment the new version's dist had claimed.
- `Versions.ReducedIsNewest`, `Versions.InvalidNameHidesNewer`: retargeting `latest` does not see past a version name
  that semver rejects.
- `Manifests.ChangeKeepsTags`, `Manifests.MergeKeepsTags`: a tag set to a name every object inherits, such as
  `constructor`, passes for an existing version.
- `RankedSearch.KeptIsNewest`: a search hit whose first version is invalid is never replaced by a newer one.
- `SetupLink.SurvivesUnlessStale`: a consumer or inspector that decided on an older record still removes the file, so it can
  destroy a newer link whose token nobody presented.
- `Htpasswd.SetAssigns`, `Htpasswd.RemoveDeletes`, `Htpasswd.RemoveLeavesTheOtherLine`: with a name on two lines, the
  editors change the first and the parser reads the last.
- `Htpasswd.EmptyNameIsAcceptedIffBlank`: the empty name matches a blank line, such as the one at the end of the file.

## Model

| member | source | states |
|---|---|---|
| MutationQueue.MutationsNeverOverlap | packages/auth/src/tfa-store.ts:367-379 | of one key, at most one mutation is between its start and the clean-up of its entry, in every interleaving |
| MutationQueue.RunsAsIfOneByOne | packages/store/src/stage-storage.ts:303-308 | every settled mutation has the result, and an idle key the value, of running the key's mutations one by one in call order, rejecting ones included; for both variants of the queue |
| MutationQueue.EntryDroppedOnlyWhenIdle | packages/auth/src/tfa-store.ts:370-376 | a key without an entry has no mutation left that has not settled |
| MutationQueue.IdleHasNoEntry | packages/auth/src/tfa-store.ts:370-376 | and a key whose mutations are all over and cleaned up has no entry left |
| MutationQueue.FirstUnfinishedCanMove | packages/auth/src/tfa-store.ts:368-369 | the earliest mutation of a key that is not finished can always take its next step, so the queue never blocks |
| StageStorage.IndexedRecordsAreBacked | packages/store/src/stage-storage.ts:164-187 | after any interleaving of adds, removes and handlers with any operation failing, an index record has its own document and tarball in place |
| StageStorage.IndexedRecordsAreDistinct | packages/store/src/stage-storage.ts:165-171 | no two index records share an id or a package and version |
| StageStorage.IndexIsCommittedMinusDropped | packages/store/src/stage-storage.ts:233-257 | the index is the successful adds, latest first, minus the dropped ids; an add is successful exactly when its call resolved, and an id is dropped exactly when some call has written its removal |
| StageStorage.StagedVersionIsNeverLost | packages/api/src/stage.ts:335-372 | from the moment add resolves, in every later state the version is staged with its own document and tarball, or is published, unless since then a process started by a call to reject or to remove this record took it out of the index, or someone unpublished the release while it was published |
| StageStorage.RemoveCommits | packages/store/src/stage-storage.ts:239-241 | the index write of a removal, failing or not, keeps every invariant although the files are still there |
| StageStorage.PublishingKeepsInv | packages/api/src/stage.ts:363-372 | approving publishes before the staged copy is removed: with every invariant kept, the approval goes on to remove only a release it has just published, and leaves the staged copy in place |
| StageRuns.ApproveAlone | packages/api/src/stage.ts:335-372 | in any reachable state with an idle queue, approving a staged and unpublished version without failures or interference publishes its release, and then its index record, document and tarball are gone and nothing else is |
| StageRuns.RejectAlone | packages/store/src/stage-storage.ts:233-257 | rejecting it takes the same away and publishes nothing |
| StageRuns.AddAlone | packages/store/src/stage-storage.ts:164-187 | adding puts the record in front of the index with its document and tarball, or, when the release is staged already, is refused and changes nothing |
| StageRuns.UnknownAlone | packages/store/src/stage-storage.ts:233-237 | removing, rejecting or approving an id that is not staged changes nothing |
| StageQueue.StageRunIsQueueRun | packages/store/src/stage-storage.ts:303-308 | every run of the staged publishing model is a run of the mutation queue that keeps its entry, with the index as the value; its jobs, finished ones too, are in call order the adds and removes the calls queued, each at the same operation |
| StageQueue.HeadIsReady | packages/store/src/stage-storage.ts:303-308 | of the mutations not yet over, exactly the one at the head of the model has its captured promise resolved in the queue |
| StageQueue.IndexIsSequential | packages/store/src/stage-storage.ts:164-257 | in every state the stage index is what the adds and removes that are over give one by one in call order, each adding its record in front, dropping its record, or changing nothing because it is refused or an operation throws; and each settled as it does then |
| TfaStore.Store.BeginEnrolment | packages/auth/src/tfa-store.ts:192-213 | replaces the user's record by a pending one and touches no other user |
| TfaStore.Store.CompleteEnrolment | packages/auth/src/tfa-store.ts:221-245 | exactly a pending record whose code matches becomes enrolled, with the hashes of the issued codes, no failures and the code's step used; other users keep their records |
| TfaStore.Store.Disable | packages/auth/src/tfa-store.ts:248-255 | removes exactly the user's record |
| TfaStore.Store.VerifyCode | packages/auth/src/tfa-store.ts:265-316 | without an enrolled and unlocked record nothing happens; a matching code is accepted exactly when its step is after the last one used, any other exactly when its hash is among the recovery codes, of which it takes that one; a success clears the failures and the lock, anything else is one more failure; other users keep their records |
| TfaStore.Store.CountFailure | packages/auth/src/tfa-store.ts:323-337 | the fifth failure sets the lockout and restarts the count |
| TfaStore.GuessBound | packages/auth/src/tfa-store.ts:265-337 | without a success, the attempts past the lock check in a window are at most 5 * (1 + window / lockout), from any stored record |
| TfaStore.AcceptedStepsIncrease | packages/auth/src/tfa-store.ts:280-293 | within one enrolment the recorded steps strictly increase, the confirming one included, whatever the clock does |
| TfaStore.RecordedIsMatched | packages/auth/src/tfa-store.ts:349-353 | the recorded step is the matched one exactly when both clock reads fall in one period |
| TfaStore.MatchesIncrease | packages/auth/src/tfa-store.ts:343-354 | then the steps of the accepted codes strictly increase: no code is accepted twice |
| TfaStore.LastCodeAgain | packages/auth/src/tfa-store.ts:280-293 | the code of the last used step is accepted again exactly when a later period has begun at the second clock read; with a clock that is not set back, when a period ends between the two reads |
| TfaStore.AcceptedCodeAgain | packages/auth/src/tfa-store.ts:280-293 | an accepted code is accepted again by the next call matching the same step exactly when that call's clock is further ahead between its two reads than the first call's was, so also when it was set back within the first |
| TfaStore.MatchUsedTwice | packages/auth/src/tfa-store.ts:349-353 | a run in which one code is accepted twice |
| TfaStore.RecoveryCodesAreConserved | packages/auth/src/tfa-store.ts:296-311 | accepted and remaining recovery codes together are the codes the record had |
| TfaStore.RecoveryCodesAreSingleUse | packages/auth/src/tfa-store.ts:296-321 | with distinct hashes no recovery code is accepted twice and at most ten are accepted |
| TfaStore.FindRecoveryCode | packages/auth/src/tfa-store.ts:318-321 | the first stored hash that equals the candidate's, or none when no stored hash does |
| TfaStore.ConcurrentCallsAreSequential | packages/auth/src/tfa-store.ts:367-379 | concurrent calls of any users, any storage operation of which may throw, answer or reject, and leave records, as the same calls one by one in call order; each amounts to its operation, to nothing, or to a disable |
| TfaStore.MutationRuns | packages/auth/src/tfa-store.ts:381-396 | reading, encrypting, deleting and saving with failures, run alone, leave the record those failure-free operations leave, and reject exactly when one of the operations it reaches throws |
| TfaStore.FailingCallMeans | packages/auth/src/tfa-store.ts:381-396 | a call rejects exactly when its read, its encryption or its save throws; it leaves the old record unless it got as far as deleting it, and the new one exactly when that was stored |
| TfaStore.RecordIsLost | packages/auth/src/tfa-store.ts:381-396 | a call leaves an enrolled user without a record exactly when it disables, or when its save throws after the old record was deleted and before the new one is stored |
| SearchPages.ReadPage | packages/search/src/search-pages.ts:56-69 | a page is accepted exactly when every chunk is an array, the chunks have at most 250 elements together and the stream ends well; it is their concatenation |
| SearchPages.ConcatIs | packages/search/src/search-pages.ts:56-69 | element by element, a page is its chunks one after the other |
| SearchPages.TakePage | packages/search/src/search-pages.ts:74-83 | the hits of a page in order, the keys seen, and whether any key was new; an item without name or version is an error |
| SearchPages.Ask | packages/search/src/search-pages.ts:26-90 | what one request contributes and how far it moves its source, or why it fails the search |
| SearchPages.Round | packages/search/src/search-pages.ts:24-91 | a round makes at least one request while a source is left, keeps both budgets, yields exactly what asking each open source once from its offset yields, and keeps each honest source's contribution a prefix of its list |
| SearchPages.SearchPages | packages/search/src/search-pages.ts:10-94 | at most 100 requests and 25,000 items; the rounds hold exactly the hits of as many whole rounds of the uplinks' answers, all of them sent by their uplink; at a normal end no source is left and each honest uplink contributed its whole list in order or was unavailable at its first request; honest uplinks cause no error but a budget or the loss of a source; small available catalogues always finish |
| SearchPages.HitsAreSent | packages/search/src/search-pages.ts:24-91 | whatever the uplinks answer, after any number of rounds every hit is an item of an answer to a request of the uplink it is attributed to |
| RankedSearch.Search.Append | packages/store/src/storage.ts:372-410 | merges a round into the map, or refuses it whole when the candidates exceed the budget, and ranks the map |
| RankedSearch.SearchPages | packages/store/src/storage.ts:363-420 | list i is the ranking of the local hits and the first i rounds; without rounds the local hits come unranked; it ends normally exactly when all candidates fit the budget |
| RankedSearch.RankedIsStableSort | packages/store/src/storage.ts:405-409 | the ranking is a permutation in descending score order that keeps the order of equal scores |
| RankedSearch.RankedByScore | packages/store/src/storage.ts:405-409 | an item that stands before another has at least its score, an item's score being the score, without it the search score, without both zero; items of one score keep their order |
| RankedSearch.MergedIsKept | packages/store/src/storage.ts:378-402 | names are distinct in the map and each entry is what its name's candidates amount to |
| RankedSearch.KeptIsNotOlder | packages/store/src/storage.ts:380-384 | no candidate for a name is strictly newer than the entry |
| RankedSearch.KeptIsNewest | packages/store/src/lib/versions-utils.ts:96-104 | the entry is a newest valid version exactly when the first candidate's version is valid |
| RankedSearch.KeptInherits | packages/store/src/storage.ts:385-399 | the first candidate's visibility survives later candidates that send none, and a score is never lost |
| RankedSearch.InheritIs | packages/store/src/storage.ts:385-399 | a candidate that replaces another is unchanged but for a visibility it does not bring, and for both scores when it brings neither |
| RankedSearch.RankedListIsComplete | packages/store/src/storage.ts:403-409 | a yielded list is in descending order and has exactly one entry for every name seen |
| RankedSearch.NamesAreNeverLost | packages/store/src/storage.ts:411-419 | a name listed once is in every later list |
| SearchHandler.CheckBatch | packages/api/src/v1/search.ts:124-140 | names not yet known are checked once, in order, and exactly the items of the batch with a true verdict are kept, in order |
| SearchHandler.ScanList | packages/api/src/v1/search.ts:118-141 | what is kept of a list is exactly the items with a true verdict of the examined prefix, which ends only when the page is filled or the list ends |
| SearchHandler.FilterPlaces | packages/api/src/v1/search.ts:131-140 | filtering keeps the items at exactly the places that pass, in order and as often as they occur |
| SearchHandler.PrefixDecides | packages/api/src/v1/search.ts:118-122 | stopping early changes neither the page nor whether it is filled |
| SearchHandler.Collect | packages/api/src/v1/search.ts:110-146 | the page is cut, place by place, from the items with a true verdict of the list the handler stops on, the first that has enough of them; every item of the page is allowed, and an unfilled first page misses none; no name is checked twice; with access by name alone the memo does not matter; it fails exactly when a check fails |
| SearchService.Serve | packages/api/src/v1/search.ts:89-147 | from query numbers to page, within the budgets: the page is cut, place by place, from the allowed items of the ranking of the local items and the hits of some number of whole rounds, all sent by their uplinks, an honest uplink's a prefix of its list; every item of the page is allowed and an unfilled first page misses none; with access by name it stops after the first round that fills the page, otherwise when no uplink is left and every honest one contributed its whole list or was unavailable from the start; when nothing can fail and the catalogue is small there is a page |
| SearchService.ContributedIsListed | packages/store/src/storage.ts:363-420 | once the uplinks have contributed, every local item and every item of an honest available uplink is listed by name, at a version it is not newer than |
| SearchService.ParseQueryIntIs | packages/api/src/v1/search.ts:19-27 | a number counts when it is not negative, up to the maximum; anything else is the default |
| LegacyAuth.AuthCache.GetEntry | packages/auth/src/auth.ts:785-803 | exactly a key with an entry that has not expired hits: a new object equal to the cached user, the key goes last and the entries stay; an expired entry is deleted |
| LegacyAuth.AuthCache.SetEntry | packages/auth/src/auth.ts:805-823 | a copy of the user is stored under the key for the time to live and the oldest keys go while there are too many; the cache holds no object it did not make or hold before |
| LegacyAuth.HitTwice | packages/auth/src/auth.ts:57-64 | whatever is written to the object of one hit, the next hit gets what was cached, in another object |
| LegacyAuth.AuthCache.Handle | packages/auth/src/auth.ts:643-668 | exactly a live cached key hits; any other request waits when its key has waiters and leads when it has none or carries no key |
| LegacyAuth.AuthCache.Complete | packages/auth/src/auth.ts:671-681 | only a success of the leader is cached; the leader and its waiters are answered and the key is free again |
| LegacyAuth.OneFlightPerKey | packages/auth/src/auth.ts:719-735 | no key ever has two authenticate calls in flight |
| LegacyAuth.FlightIsNotCached | packages/auth/src/auth.ts:671-681 | a key in flight is never in the cache |
| LegacyAuth.FreshKeyIsAnsweredFromCache | packages/auth/src/auth.ts:645-651 | over any run, a request is answered from the cache, with the user of the last success for its key, exactly when that success is younger than the time to live and was not dropped to make room |
| LegacyAuth.OutcomeIs | packages/auth/src/auth.ts:653-664 | an answer is the user authenticate gave, with the key of the request's own token where its credentials carry one |
| LegacyAuth.EveryRequestIsRepliedOnce | packages/auth/src/auth.ts:737-755 | no request is answered twice, and when nothing is in flight every request has been answered |
| LegacyAuth.RepliesAreRight | packages/auth/src/auth.ts:645-687 | an answer goes back to one arrival: it is the user cached for the key then, given by authenticate less than the time to live before, or what the request's own call came to, or what the call in flight for its key at that moment came to |
| LegacyAuth.RequestIsLedByItsFlight | packages/auth/src/auth.ts:665-687 | from its arrival and through every continuation, a request not answered from the cache is led by its own call, or by the one in flight for its key when it arrived, and by no other |
| LegacyAuth.MapOrderIsRecencyOrder | packages/auth/src/auth.ts:800-801 | the map iterates in order of last use and never exceeds its maximum |
| LegacyAuth.EvictionDropsLeastRecentlyUsed | packages/auth/src/auth.ts:815-822 | caching a success keeps the new key, fills the cache up, and drops only keys used before all that stay |
| Versions.ReducedIsNewest | packages/store/src/lib/versions-utils.ts:96-104 | it picks a newest version exactly when one is listed behind every name semver rejects |
| Versions.ReducedOfValidIsNewest | packages/store/src/storage.ts:239-243 | among valid versions it always picks a newest one |
| Versions.ReducedIsFirst | packages/store/src/lib/versions-utils.ts:96-104 | of several newest versions it picks the one listed first |
| Versions.InvalidNameHidesNewer | packages/store/src/lib/versions-utils.ts:96-104 | one invalid name hides every newer version listed before it |
| Manifests.MergeTagsKeepsTags | packages/store/src/storage.ts:1579-1598 | after a tag request every tag still names an existing version |
| Manifests.MergeTagsMeans | packages/store/src/storage.ts:1579-1598 | a request succeeds exactly when every version it names is found; then null entries remove their tag, versions semver can read replace it, and all other tags stay |
| Manifests.ChangeOnlyDeprecates | packages/store/src/storage.ts:178-216 | a change keeps exactly the versions that are stored and sent, never their tarball or checksum, and changes only deprecation messages: a sent message is set, an empty one clears it, none leaves it |
| Manifests.ChangeMeans | packages/store/src/storage.ts:153-247 | an attachment loses its label exactly when the labelled version goes, a removed version its time entry, the manifest is dated exactly when a message changes, and a requested tag stays as it is while its version does |
| Manifests.ChangeKeepsTags | packages/store/src/storage.ts:231-247 | after a change the tags name existing versions exactly when none was set to an inherited property's name |
| Manifests.ChangeRetargetsLatest | packages/store/src/storage.ts:235-247 | a dangling latest moves to a survivor, newest exactly when a newest one is listed behind every invalid name, and goes when no version is left |
| Manifests.PruneKeepsTags | packages/store/src/storage.ts:1187-1214 | after a retention removal every tag names an existing version |
| Manifests.PruneMeans | packages/store/src/storage.ts:1183-1220 | exactly the version, its time entry and its attachment go, and the tags on it but latest |
| Manifests.PruneRetargetsLatest | packages/store/src/storage.ts:1200-1211 | the same as for a change, when latest named the removed version |
| Manifests.MergeKeepsTags | packages/store/src/storage.ts:2922-2985 | after an uplink merge the tags name existing versions exactly when every remote tag names a cached version or a sent one not named like an inherited property |
| Manifests.MergeOnlyAdds | packages/store/src/storage.ts:2935-2965 | a merge leaves cached versions and their order alone and adds every other sent version unchanged |
| Manifests.MergeTakesTags | packages/store/src/storage.ts:2978-2985 | after an uplink merge a tag is there exactly when it was cached or sent; a sent tag has the version sent, any other the cached one |
| PackageStore.Package.AddVersion | packages/store/src/storage.ts:2361-2451 | the version, its time entry and the claimed attachment's label, or a refused checksum or tarball name and an unchanged manifest |
| PackageStore.AddingMeans | packages/store/src/storage.ts:2361-2451 | refused exactly for another checksum of a listed tarball or a tarball named like an object's property; otherwise the version is listed, a listed tarball gets its label, and a version with a tarball is dated, the creation date once |
| PackageStore.Package.MergeTags | packages/store/src/storage.ts:1579-1598 | all entries of the request take effect, or none when one names an unknown version |
| PackageStore.Package.UploadTarball | packages/store/src/storage.ts:2251-2352 | a stored name is a conflict; otherwise the bytes are stored and then listed with their digest, the bytes staying when the listing fails |
| PackageStore.Package.RollBack | packages/store/src/storage.ts:2040-2059 | the manifest after undoing a publish is that of the specification function |
| PackageStore.Package.Commit | packages/store/src/storage.ts:2072-2196 | version, tags and tarball are committed in this order up to the first that fails, what was committed before staying |
| PackageStore.Package.Publish | packages/store/src/storage.ts:1924-2070 | state and answer are those of the specification function, clean-up included |
| PackageStore.Package.ChangePackage | packages/store/src/storage.ts:136-250 | the three loops compute the changed manifest |
| PackageStore.Package.PruneVersion | packages/store/src/storage.ts:1183-1220 | the version, its attachment and its tarball go, found by the version's label or else by the composed name; tags on it are retargeted or dropped |
| PackageStore.Package.UpdateVersions | packages/store/src/storage.ts:2922-3010 | the loops compute the merged manifest (MergeTakesTags, MergeOnlyAdds), which is written only when it differs |
| PublishRuns.PublishIsAllOrNothing | packages/store/src/storage.ts:1990-2070 | a success leaves version, tags, attachment and tarball; a failure restores the package exactly when no tarball of the name was stored, no attachment carried the version and the version's dist claimed none |
| PublishRuns.FailedPublishIsUndone | packages/store/src/storage.ts:2016-2068 | whatever else, a failed publish leaves no version, tag or time entry behind, and no package it created |
| PublishRuns.PublishSucceedsIff | packages/store/src/storage.ts:2072-2196 | a publish succeeds exactly when it is not refused, no step fails, the checksum and tarball name are accepted, every tag names a known version and no tarball of the name is stored |
| PublishRuns.StoredTarballIsLost | packages/store/src/storage.ts:2059-2060 | publishing under a stored tarball's name fails and deletes that tarball |
| PublishRuns.PublishThenUnpublish | packages/store/src/storage.ts:153-250 | unpublishing what was just published gives back versions, order and tags |
| PublishRuns.TagsNameVersions | packages/store/src/storage.ts:1579-1598 | after any run of publishes, failed ones included, tag changes, unpublishes, deprecations, retention removals and uplink merges every dist-tag names an existing version |
| PublishRuns.LatestMovesToNewest | packages/store/src/storage.ts:231-247 | in such a run, with valid versions from uplinks, latest always moves to a newest version that is left |
| PublishRuns.Perform | packages/store/src/storage.ts:1924-2070 | the methods of a package do what these runs say, operation by operation |
| SetupLink.TokenIsConsumedOnce | packages/plugins/htpasswd/src/setup-link.ts:156-193 | however issuers, inspectors and consumers interleave, a token is answered ok at most once |
| SetupLink.OkMeansOwnRecord | packages/plugins/htpasswd/src/setup-link.ts:174-186 | and only if the file claimed was the token's own record, unexpired at the second check |
| SetupLink.ConsumeAlone | packages/plugins/htpasswd/src/setup-link.ts:156-193 | undisturbed, a consumer gets ok exactly when the file is its token's unexpired record; a matching or expired record is gone afterwards, any other stays |
| SetupLink.ConsumeAloneWithUsers | packages/plugins/htpasswd/src/setup-link.ts:156-165 | with users it never gets ok: for the token's unexpired record it is told there is an admin and the record goes, any other file stays |
| SetupLink.InspectAlone | packages/plugins/htpasswd/src/setup-link.ts:136-154 | undisturbed, an inspector gets ok exactly for the token's unexpired record, which stays, and without users removes an expired one; with users it is told there is an admin exactly for that record, which goes |
| SetupLink.IssueAlone | packages/plugins/htpasswd/src/setup-link.ts:114-132 | undisturbed, an issuer leaves its own record in place for the time to live, or no file when there are users |
| SetupLink.SurvivesUnlessStale | packages/plugins/htpasswd/src/setup-link.ts:114-193 | in any reachable state, a link in place survives every continuation without another issue or a new admin, until it expires or its own token claims it, exactly when no process is at a step that acts on another record |
| OidcState.SweepMap | packages/plugins/oidc/src/state.ts:31-38 | exactly the entries that have not expired are kept |
| OidcState.OidcStateStore.CompleteCliSession | packages/plugins/oidc/src/state.ts:98-107 | a token is stored only in a live session, with a new expiry |
| OidcState.OidcStateStore.ConsumeCliToken | packages/plugins/oidc/src/state.ts:110-120 | a session with a token is removed when it is read, one without stays |
| OidcState.OidcStateStore.ConsumePendingConfirm | packages/plugins/oidc/src/state.ts:137-144 | the entry is removed and returned only while it is live |
| OidcState.SweepsAreUnobservable | packages/plugins/oidc/src/state.ts:52-57 | sweeps anywhere in a run change no answer of any method |
| OidcState.TokenIsHandedOutOnce | packages/plugins/oidc/src/state.ts:109-120 | a session id hands out at most one token per session created under it |
| OidcState.TokenWasCompleted | packages/plugins/oidc/src/state.ts:98-120 | and always one given to completeCliSession for that session before |
| OidcState.ConfirmIsConsumedOnce | packages/plugins/oidc/src/state.ts:126-144 | a confirm id is consumed at most as often as it was created |
| OidcState.AuthIsConsumedOnce | packages/plugins/oidc/src/state.ts:62-84 | a state parameter is consumed at most as often as an authorization was begun under it |
| OidcState.AuthIsFound | packages/plugins/oidc/src/state.ts:62-84 | and its next consumption returns that authorization, exactly within its time to live, whatever else happens in between |
| OidcState.ConfirmIsFound | packages/plugins/oidc/src/state.ts:126-144 | the same for a parked confirmation |
| OidcState.SessionIsFound | packages/plugins/oidc/src/state.ts:86-120 | a session created or completed is, until the next call on it, live exactly within its time to live, can be completed then, and hands out the token it was completed with |
| Htpasswd.SetPassword | packages/plugins/htpasswd/src/utils.ts:267-282 | fails exactly when no line has the name; parsing the result assigns the hash and nothing else exactly when no later line gives the name another hash; on a body made by clean edits it agrees with the edit of the map |
| Htpasswd.ChangePassword | packages/plugins/htpasswd/src/utils.ts:232-256 | succeeds exactly when the password verifies against the hash on the name's first line, and tells an unknown name from a wrong password; what parsing gives is as for setting a password |
| Htpasswd.RemoveUser | packages/plugins/htpasswd/src/utils.ts:290-298 | fails exactly when no line has the name; parsing the result drops the user and nothing else exactly when no other line names it; on a body made by clean edits it agrees with the edit of the map |
| Htpasswd.AddAssigns | packages/plugins/htpasswd/src/utils.ts:133-152 | adding a line to any body assigns the user's hash and changes no other |
| Htpasswd.SetAssigns | packages/plugins/htpasswd/src/utils.ts:267-282 | replacing a line assigns the hash and nothing else exactly when no later line gives the name another hash |
| Htpasswd.RemoveDeletes | packages/plugins/htpasswd/src/utils.ts:290-298 | removing a line deletes the user and nothing else exactly when no other line names the user |
| Htpasswd.RemoveLeavesTheOtherLine | packages/plugins/htpasswd/src/utils.ts:290-298 | with two lines for a name, removing it brings back the hash of the other line |
| Htpasswd.FileRefinesMap | packages/plugins/htpasswd/src/utils.ts:49-58 | after any edits from the empty file, parsing gives the map the same edits make |
| Htpasswd.NextEditRefines | packages/plugins/htpasswd/src/utils.ts:133-152 | and the next edit is refused for the same reason, or makes the same change |
| Htpasswd.EmptyNameMatchesABlankLine | packages/plugins/htpasswd/src/utils.ts:290-298 | removing the empty name succeeds although no such user exists |
| Htpasswd.EmptyNameIsAcceptedIffBlank | packages/plugins/htpasswd/src/utils.ts:267-298 | in a file of clean edits removing the empty name, or setting its password, succeeds exactly when some line is blank; removing then deletes nobody and setting gives the empty name a password |
| IpUtils.ParseIsPositional | packages/core/core/src/ip-utils.ts:26-37 | shifting through signed 32-bit values and dropping the sign gives a*2^24 + b*2^16 + c*2^8 + d |
| IpUtils.MaskedIs | packages/core/core/src/ip-utils.ts:50-52 | masking an address keeps the multiple of 2^(32-prefix) below it |
| IpUtils.InCIDRIsSamePrefix | packages/core/core/src/ip-utils.ts:42-53 | membership is equality of the quotients by 2^(32-prefix), for every prefix from 0 to 32, as section 3.1 of RFC 4632 defines a prefix |
| IpUtils.InCIDRIff | packages/core/core/src/ip-utils.ts:42-53 | a member is exactly an IPv4 address with the same quotient as an IPv4 range, for a prefix from 0 to 32; anything else is refused |
| IpUtils.WiderBlocksContain | packages/core/core/src/ip-utils.ts:42-53 | a member of a block is a member of every block around it |
| IpUtils.ExtremePrefixes | packages/core/core/src/ip-utils.ts:42-53 | prefix 0 holds every address, prefix 32 only the range address |

## Left out

- Queues: unqueued reads of the two-factor record, and one user shared by two `TfaStore` instances.
- Two-factor store: the class `Store` models calls whose storage works, `Mutation` those whose storage may fail; encryption of the record, TOTP generation and secrets, which are parameters.
- Staged publishing: `list` filters, permission checks, notifications and the TTL of records; `savePackage` of the index either stores it and succeeds or does neither, and record ids are fresh.
- Search: abort signals, timeouts, streams and the query itself; a request is one answer of the uplink, and the failure of a check is modelled, its message is not.
- Search handler: the response envelope around the page, and how a query string becomes a number, whose result is an argument.
- Legacy authentication: which credentials a header carries, JWT bearers, anonymous users and error messages. The fields of a user are one value, so that copying also copies the group arrays is not told apart; nor is the object a leader shares with its waiters when the token has no key.
- Legacy authentication: a plugin that never calls back, calls back twice or throws after calling back, and handlers that throw.
- Manifest: owners, visibility and permission checks, users and maintainers, readmes, attestations, signatures, scan results, revision numbers and uplink records.
- Manifest: lock files and concurrent writers of one package; operations on a package run one after the other, and a failed write leaves the manifest as it was.
- Manifest: the package-list database, which a rollback does not restore, and a local manifest that exists but cannot be read.
- Manifest: a clean-up that fails; the statements about a failed publish are about one whose clean-up succeeds.
- Manifest: tag names that are themselves names of inherited properties, and the order integer-like keys take in an object; version listings are in insertion order.
- PublishRuns.TagsNameVersions: for change requests that set no tag to an inherited property's name and uplinks whose own tags name versions they send; `ChangeKeepsTags` and `MergeKeepsTags` show that both are needed.
- TfaStore.GuessBound: the clock does not run backwards during the run.
- Retention: which versions a policy prunes, which is an argument.
- Setup link: the password file the handler writes after an ok, directory creation and file modes.
- OIDC: discovery, token verification and the generation of ids; `TokenIsHandedOutOnce` and `ConfirmIsConsumedOnce` count sessions and confirms created under an id instead of assuming ids are fresh.
- htpasswd: hashing and its algorithms, the maximum number of users, the bootstrap account, and the file lock; a password verification that throws is a refusal.
- Htpasswd.FileRefinesMap: hashes are not empty and have no colon, line end or surrounding blanks, comments have no line end, and names are neither empty nor `__proto__`, which an object cannot hold as a key.
- IP ranges: IPv6, IPv4-mapped addresses and the parsing of a range list; an address is its four octets.
- HTTP routing, configuration, logging, plugin loading, the proxy client, the user interface and the command line.
