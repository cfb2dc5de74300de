# Google Sheets plugin for Dataiku DSS, modelled in Dafny

This project models the core of the Dataiku DSS Google Sheets plugin and proves
properties about that model. It covers:

- **The Google Drive session** (`DriveSession`, `DriveRemote`, `DrivePaths`,
  `DriveUtils`, `MemoryCache`):
  - path splitting and path checks;
  - Drive query building, file filtering and id collection;
  - date and size conversions and export mimetypes;
  - the retry loops of `list`, `create`, `update` and `delete`;
  - the path walkers `get_item_from_path` and `create_directory_from_path`;
  - upload, the download plan, and the shared in-memory discovery cache.
- **The helpers both recipes share** (`SheetsCommon`, `CivilTime`):
  - credential extraction and tab selection;
  - unique column names and slugs;
  - date columns and date conversion of a row.
- **The two recipes and the trigger** (`SheetBatches`, `AppendRecipe`,
  `MultisheetsRecipe`, `LastModifiedTrigger`):
  - the append recipe, which merges input schemas and writes each input to a tab in batches of 50;
  - the multi-sheets recipe, which finds or creates the document and writes each mapped dataset to its sheet in batches of a configurable size, with an optional pause;
  - the scenario trigger that fires when the remote file is newer than the target dataset.

Outside services become explicit values:

- **The Drive service** is a `Remote` value.
  - Each endpoint answers a script of replies, one per call. A call after the script runs out gets a 503 with no JSON body.
  - `randrange(5)` draws come from a script as well.
  - Every request and every sleep is appended to a log.
  - Session methods change this value. Each method is proved equal to a recursive function that mirrors its loop, and the properties are lemmas about those functions.
- **The sheet, the output dataset's writer and the clock** are an `Output` object. It holds a log of events: open a worksheet, clear it, append a batch, pause, echo a row to the output dataset, write the output schema, create a document.
- **Timestamp parsers, metadata fetches, slugify and the mimetype guesser** are function parameters. They are calls into libraries whose code is not part of this model.

Two source behaviours are kept exactly as written:

- `googledrive_delete` has no `return` after a successful call. It calls the service five times and then reports "Max number of attempts reached", unless one of the calls answers 404 (`DriveSessionProperties.DeleteGivesUp`).
- `check_path_format` tests each element of `path.split('/')` for the prefix `.well-known/acme-challenge`. That prefix contains a slash, so the test can never fire (`DrivePaths.AcmePrefixHasSlash`, `DrivePaths.CheckSlashFreeElements`).

## Model

Source paths below are relative to the plugin repository.

| member | source | states |
|---|---|---|
| DrivePaths.SplitPath | python-lib/dku_googledrive/googledrive_utils.py:47-61 | the `os.path.split` loop returns exactly the leading run of slashes (when there is one) followed by the non-empty pieces between slashes |
| DrivePaths.SplitSpecShape | python-lib/dku_googledrive/googledrive_utils.py:47-61 | every token is non-empty; every token after the first is free of slashes; a path that starts with slashes yields that slash run as its first token |
| DrivePaths.SplitJoinRelative | python-lib/dku_googledrive/googledrive_utils.py:47-61 | splitting the "/"-join of non-empty, slash-free names gives back the names |
| DrivePaths.SplitJoinAbsolute | python-lib/dku_googledrive/googledrive_utils.py:47-61 | splitting "/" followed by such a join gives "/" followed by the names |
| DrivePaths.PosixJoinMeaning | python-lib/dku_googledrive/session.py:167 | `os.path.join(a, b)` ends with `b`; it is `b` when `b` is absolute; otherwise it starts with `a`, and a "/" follows `a` when `a` is non-empty and does not end with one; this is the contract of `DrivePaths.PosixJoin`, the function that models `os.path.join` on two strings |
| DrivePaths.CheckElements | python-lib/dku_googledrive/googledrive_utils.py:147-155 | no error exactly when every element passes; otherwise the error reported is the one of some element |
| DrivePaths.CheckPathFormatMeaning | python-lib/dku_googledrive/googledrive_utils.py:143-155 | the path is accepted exactly when all its characters are printable and every piece between slashes is at most 1024 long, is not "." or "..", and does not end with a space; the acme-challenge error is never reported; this is the contract of `DrivePaths.CheckPathFormat`, the function that models `check_path_format` |
| DrivePaths.CheckSlashFreeElements | python-lib/dku_googledrive/googledrive_utils.py:147-155 | for slash-free elements, acceptance is exactly the length, special-name and trailing-space tests: the acme-challenge error is never produced |
| DrivePaths.AcmePrefixHasSlash | python-lib/dku_googledrive/googledrive_utils.py:154 | an element that starts with the acme-challenge prefix contains a slash |
| DriveUtils.KeepFilesWith | python-lib/dku_googledrive/googledrive_utils.py:72-81 | the loop returns, item by item, the item once if it passes the prefix test and once more if it passes the name test |
| DriveUtils.KeptByName | python-lib/dku_googledrive/googledrive_utils.py:78-80 | with only a name, the result is the items with that exact name, in order |
| DriveUtils.KeptByPrefix | python-lib/dku_googledrive/googledrive_utils.py:75-77 | with only a prefix, the result is the items whose name starts with it, in order |
| DriveUtils.KeptAsSelections | python-lib/dku_googledrive/googledrive_utils.py:72-81 | as a multiset, the result is the prefix selection plus the name selection |
| DriveUtils.KeptTwice | python-lib/dku_googledrive/googledrive_utils.py:72-81 | an item that passes both tests appears twice as often as it does in the input |
| DriveUtils.RemoveDuplicatesMeaning | python-lib/dku_googledrive/googledrive_utils.py:100-101 | the result has no duplicates and holds exactly the input's elements; this is the contract of `DriveUtils.RemoveDuplicates`, the function that models `remove_duplicates` |
| DriveUtils.GetFilesIds | python-lib/dku_googledrive/googledrive_utils.py:93-97 | the loop returns the de-duplicated list of the files' ids |
| DriveUtils.GetFilesIdsMeaning | python-lib/dku_googledrive/googledrive_utils.py:93-97 | the ids returned are distinct and are exactly the ids of the files |
| DriveUtils.QueryParentsIn | python-lib/dku_googledrive/googledrive_utils.py:158-174 | the loop builds the "(... in parents or ...)" group and then the trashed, name and name-contains clauses, in that order |
| DriveUtils.QueryEmpty | python-lib/dku_googledrive/googledrive_utils.py:158-167 | an example, not a property: no parents and no filters give "()"; the general case is QueryParentsIn |
| DriveUtils.QueryTwoParents | python-lib/dku_googledrive/googledrive_utils.py:158-167 | an example, not a property: two parents are joined by a single " or " with no leading separator; the general case is QueryParentsIn |
| DriveUtils.FormatDate | python-lib/dku_googledrive/googledrive_utils.py:109-115 | a date gives a whole number of seconds in milliseconds; None gives None |
| DriveUtils.FormatDateBounds | python-lib/dku_googledrive/googledrive_utils.py:111-113 | the milliseconds are the exact epoch offset truncated toward zero to a whole second |
| DriveUtils.FormatDateMonotone | python-lib/dku_googledrive/googledrive_utils.py:109-113 | a later time never gives a smaller value |
| DriveUtils.FormatDateEpoch | python-lib/dku_googledrive/googledrive_utils.py:112 | an example, not a property: 1970-01-01 00:00:00 gives 0; the general facts are FormatDateBounds and FormatDateMonotone |
| DriveUtils.GetLastModified | python-lib/dku_googledrive/googledrive_utils.py:104-115 | no value exactly when the key is absent, the TypeError of `int(None)` exactly when the key holds null, and otherwise the whole epoch seconds times 1000 |
| DriveUtils.GetGoogleDocMimeEquivalence | python-lib/dku_googledrive/googledrive_utils.py:126-130 | a type missing from both tables gives the default, text/csv |
| DriveUtils.MimeFlagOnlyAffectsSpreadsheets | python-lib/dku_googledrive/googledrive_utils.py:32-44 | spreadsheets export as CSV, or as XLSX with the flag; every other type gets the same answer whatever the flag |
| DriveUtils.FileSize | python-lib/dku_googledrive/googledrive_utils.py:133-140 | 0 for a folder; the size field when there is one; 1 for a file without a size; 0 exactly for folders and zero-sized files |
| DriveUtils.GetRootId | python-lib/dku_googledrive/googledrive_utils.py:177-181 | never empty; a configured non-empty id is used; "root" exactly when nothing usable is configured or "root" itself is |
| DriveRemote.HandleErrors | python-lib/dku_googledrive/session.py:297-304 | a 403, 500 or 503 sleeps once and returns; any other status raises with its context and JSON reason (or "") and does not sleep |
| DriveRemote.SleepRandomSleeps | python-lib/dku_googledrive/session.py:299 | the sleep lasts 5 to 9 seconds and is logged once; nothing but the draws and the log changes; this is the contract of `DriveRemote.SleepRandom`, the function that models the random sleep |
| DriveRemote.ExecuteList | python-lib/dku_googledrive/session.py:150 | logs one list request with its query and page token; a success consumes one scripted reply |
| DriveRemote.ExecuteCreate | python-lib/dku_googledrive/session.py:193-198 | logs one create request with its body and media |
| DriveRemote.ExecuteUpdate | python-lib/dku_googledrive/session.py:248-254 | logs one update request with its file id, body and media |
| DriveRemote.ExecuteRemoveParent | python-lib/dku_googledrive/session.py:283-287 | logs one update request that removes the given parent |
| DriveRemote.ExecuteDelete | python-lib/dku_googledrive/session.py:278-281 | logs one delete request for the file id |
| DriveSession.Lower | python-lib/dku_googledrive/session.py:215 | `lower()` keeps the length and maps each character on its own |
| DriveSession.UploadMetadata | python-lib/dku_googledrive/session.py:210-216 | no parents; a spreadsheet mimetype exactly when writing as Google doc and the guessed type is CSV; ".csv" is appended exactly in that case when the lower-cased name ends with ".csv" |
| DriveSession.DownloadPlan | python-lib/dku_googledrive/session.py:107-122 | Google docs are exported with the equivalent mimetype, other files downloaded as they are, always by the item's id |
| DriveSession.ListPagesUnfold | python-lib/dku_googledrive/session.py:144-153 | one page call: an error ends the pass; a non-empty next-page token continues with it, keeping the files already read; otherwise the page's files are the result |
| DriveSession.GoogleDriveSession.constructor | python-lib/dku_googledrive/session.py:39-58 | the root id is `get_root_id` of the configuration and never empty; the two flags are kept |
| DriveSession.GoogleDriveSession.ExecuteListCall | python-lib/dku_googledrive/session.py:150 | the call and the new service state agree with `ExecuteList` |
| DriveSession.GoogleDriveSession.ExecuteCreateCall | python-lib/dku_googledrive/session.py:193-198 | the call agrees with `ExecuteCreate` |
| DriveSession.GoogleDriveSession.ExecuteUpdateCall | python-lib/dku_googledrive/session.py:248-254 | the call agrees with `ExecuteUpdate` |
| DriveSession.GoogleDriveSession.ExecuteDeleteCall | python-lib/dku_googledrive/session.py:277-287 | a delete, or a parent removal when the item has several parents and a parent id is given |
| DriveSession.GoogleDriveSession.HandleGoogledriveErrors | python-lib/dku_googledrive/session.py:297-304 | result and new state are those of `HandleErrors` |
| DriveSession.GoogleDriveSession.ListPagesOnce | python-lib/dku_googledrive/session.py:137-153 | the inner page loop agrees with `ListPages` from no page token |
| DriveSession.GoogleDriveSession.GoogledriveList | python-lib/dku_googledrive/session.py:133-158 | the retry loop agrees with `List` (five passes at most) |
| DriveSession.GoogleDriveSession.Directory | python-lib/dku_googledrive/session.py:128-131 | lists the untrashed children of the item |
| DriveSession.GoogleDriveSession.MatchToken | python-lib/dku_googledrive/session.py:82-85 | lists by name-contains, then keeps the prefix matches, then the exact matches |
| DriveSession.GoogleDriveSession.GetItemFromPath | python-lib/dku_googledrive/session.py:66-90 | agrees with `ItemFromPath` on answer and service state: the root descriptor for a single token, otherwise the walk over the tokens, whose levels `WalkLevel` describes |
| DriveSession.GoogleDriveSession.GetItemFromTokens | python-lib/dku_googledrive/session.py:75-90 | the token loop agrees with `ItemFromTokens` on answer and service state, level by level as `WalkLevel` states |
| DriveSession.GoogleDriveSession.GoogledriveCreate | python-lib/dku_googledrive/session.py:186-204 | agrees with `Create`: the parent replaces the body's parents when given, then at most five attempts |
| DriveSession.GoogleDriveSession.CreateDirectory | python-lib/dku_googledrive/session.py:177-184 | creates a folder with that name and those parents |
| DriveSession.GoogleDriveSession.CreateDirectoryFromPath | python-lib/dku_googledrive/session.py:160-175 | agrees with `MakeDirectoryPath` on answer and service state; `MakeDirectoriesSnoc` and `SegmentCases` say what that is |
| DriveSession.GoogleDriveSession.CreateDirectories | python-lib/dku_googledrive/session.py:163-175 | the token loop agrees with `MakeDirectories` from the root, whose growth by one token `MakeDirectoriesSnoc` gives |
| DriveSession.GoogleDriveSession.ResolveSegment | python-lib/dku_googledrive/session.py:167-174 | one loop step agrees with `Segment` at the joined path, whose found, missing and error cases `SegmentCases` gives |
| DriveSession.GoogleDriveSession.GoogledriveUpdate | python-lib/dku_googledrive/session.py:244-271 | agrees with `Update`, including the switch to create on a 404 |
| DriveSession.GoogleDriveSession.UpdateAttempt | python-lib/dku_googledrive/session.py:247-270 | one loop pass: done with the overall result, or leaves a state from which one more attempt gives the same result |
| DriveSession.GoogleDriveSession.GoogledriveDelete | python-lib/dku_googledrive/session.py:273-295 | agrees with `Delete` |
| DriveSession.GoogleDriveSession.DeleteAttempt | python-lib/dku_googledrive/session.py:276-294 | one loop pass, as for update |
| DriveSession.GoogleDriveSession.GoogledriveUpload | python-lib/dku_googledrive/session.py:206-242 | agrees with `Upload`: list by name in the parent, then create or update |
| DriveSessionProperties.RetryLoopsKeepSleepsInRange | python-lib/dku_googledrive/session.py:297-299 | after list, create, update or delete, every logged sleep lasts 5 to 9 seconds |
| DriveSessionProperties.RetryCounts | python-lib/dku_googledrive/session.py:154-156 | a failed transient call adds exactly one call and one sleep to the log |
| DriveSessionProperties.ListGivesUp | python-lib/dku_googledrive/session.py:134-158 | with only transient failures left, list reports "max attempts" after one call and one sleep per remaining attempt |
| DriveSessionProperties.CreateGivesUp | python-lib/dku_googledrive/session.py:191-204 | the same for create |
| DriveSessionProperties.UpdateGivesUp | python-lib/dku_googledrive/session.py:246-271 | the same for update |
| DriveSessionProperties.DeleteGivesUp | python-lib/dku_googledrive/session.py:275-295 | the same for delete, where successes count as passes too |
| DriveSessionProperties.ListStopsOnLastingError | python-lib/dku_googledrive/session.py:133-158 | a first non-transient error ends list with that error after one call and no sleep |
| DriveSessionProperties.CreateStopsOnLastingError | python-lib/dku_googledrive/session.py:186-204 | the same for create |
| DriveSessionProperties.UpdateStopsOnLastingError | python-lib/dku_googledrive/session.py:244-271 | the same for update, for statuses other than 404 |
| DriveSessionProperties.DeleteStopsOnLastingError | python-lib/dku_googledrive/session.py:273-295 | the same for delete, for statuses other than 404, whether the item is deleted outright or detached from `parent_id` |
| DriveSessionProperties.DeleteNotFoundIsDone | python-lib/dku_googledrive/session.py:288-291 | a 404 on delete returns successfully at once |
| DriveSessionProperties.DeleteRequestChoice | python-lib/dku_googledrive/session.py:277-287 | a delete request exactly when the item has one parent or no parent id is given, and a parent removal otherwise |
| DriveSessionProperties.ListPagesReadsScript | python-lib/dku_googledrive/session.py:144-153 | a pass succeeds exactly when the script holds successful pages up to one without a next token; the result is all their files, in order, and exactly those replies are consumed |
| DriveSessionProperties.ListPagesFailsAt | python-lib/dku_googledrive/session.py:146-154 | a failure after any number of pages ends the pass with that error, having consumed those pages and the failing reply |
| DriveSessionProperties.ListRetryRestarts | python-lib/dku_googledrive/session.py:136-156 | a transient error at any page drops the files gathered so far: the listing is the retry, from the first page, on the replies after the error, and returns only a complete run found there |
| DriveSessionProperties.CreateKeepsOtherScripts | python-lib/dku_googledrive/session.py:191-204 | create consumes no list, update or delete replies |
| DriveSessionProperties.UpdateNotFoundCreates | python-lib/dku_googledrive/session.py:258-266 | a 404 on update is followed by a create with the same body, media and parent |
| DriveUtils.MatchedAreNamed | python-lib/dku_googledrive/session.py:84-85 | after both filters, every file kept has exactly the token as its name |
| DriveSession.Matching | python-lib/dku_googledrive/session.py:82-85 | every file one level of the walk matches has the token as its name |
| DriveSession.Walk | python-lib/dku_googledrive/session.py:77-90 | when the tokens end on a name, an item the walk finds has that last token as its name |
| DriveSessionProperties.ItemFromPathFindsLastName | python-lib/dku_googledrive/session.py:66-90 | for a path of two tokens or more, an item found has the path's last token as its name |
| DriveSessionProperties.ListAttemptsLists | python-lib/dku_googledrive/session.py:133-158 | a listing asks for nothing but pages of its own query, and touches no other script |
| DriveSessionProperties.MatchingAsks | python-lib/dku_googledrive/session.py:82-85 | one level asks only for the untrashed children of the current parents whose name contains the token, starting with the first page |
| DriveSessionProperties.ListPagesFirstPages | python-lib/dku_googledrive/session.py:144-152 | a pass asks for exactly one first page; later pages go with the previous page's token |
| DriveSessionProperties.ListOnePass | python-lib/dku_googledrive/session.py:133-153 | on a script of pages with an end, a listing succeeds in one pass and leaves the rest of the pages |
| DriveSessionProperties.WalkSkipsSlash | python-lib/dku_googledrive/session.py:78-80 | a "/" token is skipped without any request |
| DriveSessionProperties.WalkLevel | python-lib/dku_googledrive/session.py:77-90 | a name token makes one listing of `Query(parents, contains token, untrashed)`; a failure raises; no exact match gives None with no later request; otherwise the matched ids are the next parents, and on the last token the first match is the answer |
| DriveSessionProperties.WalkLists | python-lib/dku_googledrive/session.py:77-90 | the walk asks for nothing but listings |
| DriveSessionProperties.ItemFromPathLists | python-lib/dku_googledrive/session.py:66-90 | `get_item_from_path` asks for nothing but listings and consumes no create, update or delete reply |
| DriveSessionProperties.WalkPasses | python-lib/dku_googledrive/session.py:77-90 | on a script of pages with an end per level, the walk makes at most one listing pass per name token, exactly one per name token when it finds an item, and fails only when no token was looked up |
| DriveSessionProperties.ItemFromPathPasses | python-lib/dku_googledrive/session.py:66-90 | the same for a path of two tokens or more, which then always resolves without error |
| DriveSessionProperties.SingleTokenIsRoot | python-lib/dku_googledrive/session.py:68-74 | a single-token path gives the root folder descriptor without any call |
| DriveSessionProperties.RootPathIsRoot | python-lib/dku_googledrive/session.py:66-74 | "/" gives the root folder |
| DriveSessionProperties.EmptyPathUnbound | python-lib/dku_googledrive/session.py:87-90 | the empty path leaves `files` (and, when creating, `new_directory_id`) unassigned and fails |
| DriveSessionProperties.MakeDirectoryPathSingle | python-lib/dku_googledrive/session.py:160-175 | a single-token path resolves to the root id without any call |
| DriveSessionProperties.SegmentCases | python-lib/dku_googledrive/session.py:166-174 | the lookup of the running path only lists; an error stops the loop; a found folder gives its id with no other request; only a missing one is created, named by the token, as a folder, under the previous segment's ids |
| DriveSessionProperties.MakeDirectoriesSnoc | python-lib/dku_googledrive/session.py:160-175 | one token more: after an error nothing else is asked and the error stands; otherwise the token is resolved at the joined path under the id returned so far, and that segment's id is the answer |
| DriveSessionProperties.MakeDirectoryPathLast | python-lib/dku_googledrive/session.py:160-175 | a path of two tokens or more gives the last segment's id, resolved at the whole path under the id of the one before, unless an earlier step raised |
| DriveSessionProperties.ListFirstCall | python-lib/dku_googledrive/session.py:144-150 | list first sends the query with no page token |
| DriveSessionProperties.CreateFirstCall | python-lib/dku_googledrive/session.py:191-198 | create first sends its body and media |
| DriveSessionProperties.CreateSendsParent | python-lib/dku_googledrive/session.py:188-198 | the body sent keeps name and mimetype and has the parent id as its only parent when one is given |
| DriveSessionProperties.UpdateFirstCall | python-lib/dku_googledrive/session.py:248-254 | update first sends its file id, body and media |
| DriveSessionProperties.UploadRequests | python-lib/dku_googledrive/session.py:206-242 | upload lists by name in the parent, then creates when nothing matches and updates the first match otherwise, with the computed metadata and media |
| MemoryCache.Lookup | python-lib/dku_googledrive/memory_cache.py:7-8 | `dict.get`: a value exactly when the key is present, and then its value |
| MemoryCache.Cache.Get | python-lib/dku_googledrive/memory_cache.py:7-8 | reads the shared store |
| MemoryCache.Cache.Set | python-lib/dku_googledrive/memory_cache.py:10-11 | the shared store maps the url to the content and is otherwise unchanged |
| MemoryCache.GetAfterSet | python-lib/dku_googledrive/memory_cache.py:7-11 | a get after a set returns that content |
| MemoryCache.SetKeepsOthers | python-lib/dku_googledrive/memory_cache.py:10-11 | a set changes no other url and removes no key |
| MemoryCache.UnsetIsNone | python-lib/dku_googledrive/memory_cache.py:7-8 | a url never set reads as None |
| MemoryCache.SharedBetweenInstances | python-lib/dku_googledrive/memory_cache.py:4-11 | what one instance sets, another instance reads, because the dict belongs to the class |
| SheetsCommon.ExtractCredentialsRaising | python-lib/googlesheets_common.py:17-49 | the raising variant: the credentials source per auth type, the error when a preset is missing or the credentials are falsy, and the per-type message; with ExtractCredentialsQuiet, this is the contract of `SheetsCommon.ExtractCredentials`, the function that extracts the credentials |
| SheetsCommon.ExtractCredentialsQuiet | python-lib/googlesheets_common.py:17-51 | the quiet variant fails only when the preset value is None; otherwise it returns the credentials, the type and the message; a fact about `SheetsCommon.ExtractCredentials` with `can_raise` false |
| SheetsCommon.CredentialTypes | python-lib/googlesheets_common.py:21-25 | service account for no type, legacy or preset; personal account for single sign-on; none otherwise |
| SheetsCommon.GetTabIds | python-lib/googlesheets_common.py:54-62 | manual selection gives the tab id; another string is wrapped in a list; a list is returned as is |
| SheetsCommon.CandidateInjective | python-lib/googlesheets_common.py:88-90 | distinct counters give distinct candidate names |
| SheetsCommon.UniqueNames | python-lib/googlesheets_common.py:80-92 | one output name per input name |
| SheetsCommon.UniqueNamesDistinct | python-lib/googlesheets_common.py:80-92 | the names produced are pairwise distinct |
| SheetsCommon.UniqueNamesAt | python-lib/googlesheets_common.py:83-91 | each name is the first candidate (base, base_1, base_2, ...) not already produced, with "none" for the empty name |
| SheetsCommon.UniqueNamesOfDistinct | python-lib/googlesheets_common.py:80-92 | distinct non-empty names are kept unchanged |
| SheetsCommon.GetUniqueNames | python-lib/googlesheets_common.py:80-92 | the nested loops compute `UniqueNames` |
| SheetsCommon.FreeCandidate | python-lib/googlesheets_common.py:86-90 | the inner loop finds the first free candidate |
| SheetsCommon.Slugs | python-lib/googlesheets_common.py:67-68 | each name is slugified in place |
| SheetsCommon.GetUniqueSlugs | python-lib/googlesheets_common.py:64-77 | the unique names of the slugs |
| SheetsCommon.MarkDateColumns | python-lib/googlesheets_common.py:95-104 | strictly increasing indexes, exactly those of the columns whose type (default "string") is "date" |
| SheetsCommon.FormatDate | python-lib/googlesheets_common.py:107-115 | a falsy date is returned as is; a date fails exactly when it does not parse, and otherwise is rewritten in the gspread format |
| SheetsCommon.ConvertAllMeaning | python-lib/googlesheets_common.py:118-122 | with distinct columns and no failure, the listed cells are converted and all others kept, and the length is kept |
| SheetsCommon.ConvertDatesInRow | python-lib/googlesheets_common.py:118-122 | the in-place loop over the array computes `ConvertAll` of the old row |
| SheetsCommon.ConvertAllStops | python-lib/googlesheets_common.py:119-121 | the first failure stops the loop: later columns are not touched |
| CivilTime.TruncDiv | python-lib/dku_googledrive/googledrive_utils.py:113 | `int()` of a quotient truncates toward zero |
| CivilTime.TruncDivMonotone | python-lib/dku_googledrive/googledrive_utils.py:112-113 | truncating to whole seconds is monotone |
| CivilTime.EpochMicrosMonotone | python-lib/dku_googledrive/googledrive_utils.py:112 | a later valid time has a larger or equal offset from the epoch |
| CivilTime.EpochSecondsMonotone | python-lib/dku_googledrive/googledrive_utils.py:112-113 | the same for whole seconds |
| CivilTime.FormatGspread | python-lib/googlesheets_common.py:14 | for a four-digit year, nineteen characters with "-", "-", " ", ":", ":" at the fixed places; `GspreadRoundTrip` reads it back |
| CivilTime.FormatIso | custom-recipes/googlesheets-append/recipe.py:99-102 | `isoformat()`: 19 characters, or 26 with microseconds, with "-", "-", "T", ":", ":" at the fixed places and a "." after the seconds only with microseconds; `IsoRoundTrip` reads it back |
| CivilTime.GspreadRoundTrip | python-lib/googlesheets_common.py:107-115 | parsing the gspread text gives back the time truncated to the second |
| CivilTime.IsoRoundTrip | custom-recipes/googlesheets-append/recipe.py:99-102 | parsing the ISO text gives back the time |
| CivilTime.IsoFraction | custom-recipes/googlesheets-append/recipe.py:101 | with microseconds, the text is 26 long and the six digits after the "." are the microseconds |
| SheetBatches.Serialize | custom-recipes/googlesheets-append/recipe.py:99-108 | non-times unchanged; times in the gspread format for USER_ENTERED and in ISO format otherwise |
| SheetBatches.SerializeRow | custom-recipes/googlesheets-append/recipe.py:136 | each value of the row serialized in place |
| SheetBatches.SerializeRows | custom-recipes/googlesheets-append/recipe.py:133-136 | each row serialized in place |
| SheetBatches.HeaderRow | custom-recipes/googlesheets-append/recipe.py:131 | the column names, in schema order |
| SheetBatches.Output.WriteTab | custom-recipes/googlesheets-append/recipe.py:128-146 | the row loop appends exactly `TabEvents` to the log |
| SheetBatches.Output.WriteRow | custom-recipes/googlesheets-append/recipe.py:133-143 | one row: gather it, flush a full batch, echo it when echoing; the next batch is empty after a flush |
| SheetBatches.Output.WriteFinal | custom-recipes/googlesheets-append/recipe.py:145-146 | a non-empty remainder is flushed |
| SheetBatches.RowsFlushes | custom-recipes/googlesheets-append/recipe.py:133-146 | concatenating the batches sent gives the starting batch followed by every serialized row, in order |
| SheetBatches.RowsWellSized | custom-recipes/googlesheets-append/recipe.py:138-140 | every batch but the last has exactly the threshold's size and the last is no larger |
| SheetBatches.RowsEchoes | custom-recipes/googlesheets-append/recipe.py:143 | the rows echoed to the output dataset are all the rows, in order, or none |
| SheetBatches.RowsPaced | custom-recipes/googlesheets-multisheets/recipe.py:94-98 | with a positive delay each full batch is preceded by exactly one pause, and the final batch by none |
| SheetBatches.RowsNeverClear | custom-recipes/googlesheets-append/recipe.py:133-146 | the row loop never clears the sheet and never sends an empty batch |
| SheetBatches.FirstFlushStarts | custom-recipes/googlesheets-append/recipe.py:128-139 | a non-empty starting batch opens the first batch sent |
| SheetBatches.FlushesNonEmpty | custom-recipes/googlesheets-append/recipe.py:145 | no batch sent is empty |
| SheetBatches.TabFlushesCoverRows | custom-recipes/googlesheets-append/recipe.py:128-146 | the batches of a tab hold the header (in overwrite mode) and then every serialized row |
| SheetBatches.TabFlushSizes | custom-recipes/googlesheets-append/recipe.py:138-140 | the batches of a tab are well sized |
| SheetBatches.TabEchoes | custom-recipes/googlesheets-append/recipe.py:143 | a tab echoes all its rows or none |
| SheetBatches.TabPaced | custom-recipes/googlesheets-multisheets/recipe.py:94-98 | a tab's pauses come exactly before its full batches |
| SheetBatches.OverwriteClearsFirst | custom-recipes/googlesheets-append/recipe.py:129-132 | in overwrite mode the sheet is cleared first and only then, and the header opens the first batch |
| SheetBatches.EmptyTab | custom-recipes/googlesheets-append/recipe.py:128-146 | no rows in append mode sends nothing; in overwrite mode it clears and sends the header alone |
| AppendRecipe.Keys | custom-recipes/googlesheets-append/recipe.py:25 | the keys of the dict, in insertion order |
| AppendRecipe.IndexOf | custom-recipes/googlesheets-append/recipe.py:17 | the first position holding the key, or None exactly when it is absent |
| AppendRecipe.Put | custom-recipes/googlesheets-append/recipe.py:18-20 | assigning keeps the key order and appends a new key at the end |
| AppendRecipe.PutLookup | custom-recipes/googlesheets-append/recipe.py:18-20 | after assigning, the key reads as the new type and other keys are unchanged |
| AppendRecipe.CombineSchemas | custom-recipes/googlesheets-append/recipe.py:11-21 | the nested loops compute the formatted `Combined` dict of all the columns, in order |
| AppendRecipe.FormatSchema | custom-recipes/googlesheets-append/recipe.py:23-32 | one column per key, in key order, with its type |
| AppendRecipe.CombinedDistinct | custom-recipes/googlesheets-append/recipe.py:11-21 | the merged schema has no repeated column name |
| AppendRecipe.KeysGrow | custom-recipes/googlesheets-append/recipe.py:11-21 | the keys after some columns are a prefix of the keys after all of them |
| AppendRecipe.NamesAreKeys | custom-recipes/googlesheets-append/recipe.py:17-18 | every column name is a key of the merged schema |
| AppendRecipe.FirstTypeKept | custom-recipes/googlesheets-append/recipe.py:17-18 | a plain name keeps the type of its first occurrence |
| AppendRecipe.AddColumnLookup | custom-recipes/googlesheets-append/recipe.py:15-20 | one column changes the type of a name without a parenthesis only when it brings that name first |
| AppendRecipe.ConflictAddsDecorated | custom-recipes/googlesheets-append/recipe.py:19-20 | a later occurrence with another type adds the key "name(type)" with that type |
| AppendRecipe.NoKey | custom-recipes/googlesheets-append/recipe.py:17-20 | a plain name that no column has is not a key |
| AppendRecipe.KeysFromColumns | custom-recipes/googlesheets-append/recipe.py:17-20 | every key is a column's name or its decorated "name(type)" |
| AppendRecipe.DecoratedHasParen | custom-recipes/googlesheets-append/recipe.py:20 | a decorated key contains "(" |
| AppendRecipe.SecondField | custom-recipes/googlesheets-append/recipe.py:64 | `split(".")[1]` fails exactly when there is no "." |
| AppendRecipe.SecondFieldOf | custom-recipes/googlesheets-append/recipe.py:64 | "project.tab..." gives the tab |
| AppendRecipe.SecondFields | custom-recipes/googlesheets-append/recipe.py:61-64 | succeeds exactly when every name has a "."; then one tab per name, in order |
| AppendRecipe.TabsFromNames | custom-recipes/googlesheets-append/recipe.py:61-64 | the loop computes `SecondFields` |
| AppendRecipe.PrefixFails | custom-recipes/googlesheets-append/recipe.py:62-64 | a failure on some name fails the whole loop |
| AppendRecipe.Names | custom-recipes/googlesheets-append/recipe.py:39 | the input names, in order |
| AppendRecipe.Schemas | custom-recipes/googlesheets-append/recipe.py:42-45 | the input schemas, in order |
| AppendRecipe.Zip | custom-recipes/googlesheets-append/recipe.py:114 | `zip` pairs inputs and tabs position by position and stops at the shorter |
| AppendRecipe.PlanTabs | custom-recipes/googlesheets-append/recipe.py:61-66 | the tab ids chosen are the ones `TabIds` gives for the config and the input names |
| AppendRecipe.WriteBlocks | custom-recipes/googlesheets-append/recipe.py:114-146 | the loop over inputs and their tabs appends exactly the events `Blocks` gives for them, in order |
| AppendRecipe.RunAppend | custom-recipes/googlesheets-append/recipe.py:39-146 | the whole recipe appends exactly `AppendRun`'s events and returns its error |
| AppendRecipe.AppendChecks | custom-recipes/googlesheets-append/recipe.py:57-68 | credentials, document id, the dotted input names (with several inputs) and empty tabs are checked in that order, and each failure stops the run with its error; `AppendRun` makes these checks through `AppendRecipe.AppendPlan`, the function that checks the config and plans the tabs |
| AppendRecipe.SeveralInputsTabs | custom-recipes/googlesheets-append/recipe.py:61-64 | with several inputs, each tab is the second dotted field of its input's name |
| AppendRecipe.AppendTab | custom-recipes/googlesheets-append/recipe.py:114-146 | each tab opens its worksheet (creating it when missing), then sends batches of 50 that cover the header and every row, echoes every row and never pauses |
| AppendRecipe.NoPauses | custom-recipes/googlesheets-append/recipe.py:138-140 | a delay of 0 means no pause |
| AppendRecipe.BlocksEchoes | custom-recipes/googlesheets-append/recipe.py:114-146 | the tabs together echo every row of every paired input, in order |
| AppendRecipe.AppendEchoesAll | custom-recipes/googlesheets-append/recipe.py:46-146 | when the checks pass, the run succeeds, first writes the merged schema, and echoes every row of every input that has a tab |
| MultisheetsRecipe.OrDefault | custom-recipes/googlesheets-multisheets/recipe.py:47-52 | `config.get(key, default)`: the default only when the key is absent |
| MultisheetsRecipe.RunMultisheets | custom-recipes/googlesheets-multisheets/recipe.py:20-101 | the whole recipe appends exactly `MultiRun`'s events and returns its error |
| MultisheetsRecipe.ResolveCases | custom-recipes/googlesheets-multisheets/recipe.py:20-45 | neither id nor name fails first; then credentials; an id is used as is; several documents with the name fail; none creates one; exactly one is used; this is the contract of `MultisheetsRecipe.ResolveDocument`, the function that resolves the document id |
| MultisheetsRecipe.IdWins | custom-recipes/googlesheets-multisheets/recipe.py:28 | with a document id, the title search and creation play no part |
| MultisheetsRecipe.TooManyDocumentsDistinct | custom-recipes/googlesheets-multisheets/recipe.py:33-36 | the message tells different counts apart |
| MultisheetsRecipe.Defaults | custom-recipes/googlesheets-multisheets/recipe.py:47-52 | with nothing configured: USER_ENTERED, batches of 200, no delay, append mode, no mapping |
| MultisheetsRecipe.MappingsStop | custom-recipes/googlesheets-multisheets/recipe.py:54-60 | the first mapping with no sheet name stops the run after the blocks of the mappings before it |
| MultisheetsRecipe.MappingsAll | custom-recipes/googlesheets-multisheets/recipe.py:54-101 | when every mapping names a sheet, every mapping is written, in order, without error |
| MultisheetsRecipe.MultiTab | custom-recipes/googlesheets-multisheets/recipe.py:84-101 | each mapping opens its sheet without creating it, sends well-sized batches that cover the header and all rows, pauses exactly before full batches and echoes nothing |
| MultisheetsRecipe.OverwriteEmpty | custom-recipes/googlesheets-multisheets/recipe.py:85-88 | an empty dataset in overwrite mode clears the sheet and writes only the header |
| LastModifiedTrigger.RemoteEpoch | python-triggers/last-modified-file-id/trigger.py:34-39 | whole seconds in milliseconds; 0 when the value is missing or does not parse |
| LastModifiedTrigger.LocalLastModified | python-triggers/last-modified-file-id/trigger.py:42-45 | the first global path's `lastModified` exactly when there is one and it is an int |
| LastModifiedTrigger.ConfigChecks | python-triggers/last-modified-file-id/trigger.py:21-29 | a missing file id fails, then a missing target dataset; nothing else fails, and empty strings pass; with FiresWhenNewer, this is the contract of `LastModifiedTrigger.Decide`, the function that computes the trigger decision |
| LastModifiedTrigger.InvalidConfigFetchesNothing | python-triggers/last-modified-file-id/trigger.py:21-34 | with an invalid configuration, neither the remote file nor the dataset is read |
| LastModifiedTrigger.FiresWhenNewer | python-triggers/last-modified-file-id/trigger.py:47-52 | fires exactly when the dataset has an int time and the remote epoch is strictly greater; a fact about `LastModifiedTrigger.Decide`, the trigger decision |
| LastModifiedTrigger.UnparseableRemote | python-triggers/last-modified-file-id/trigger.py:35-39 | an unreadable remote time counts as 0: it fires only for a negative local time |
| LastModifiedTrigger.RemoteEpochMonotone | python-triggers/last-modified-file-id/trigger.py:37 | a later remote instant never gives a smaller epoch |
| LastModifiedTrigger.UtcRemoteEpoch | python-triggers/last-modified-file-id/trigger.py:37 | a UTC timestamp gives its epoch seconds times 1000 |

## Left out

- **`strptime`, `strftime` and `timestamp()`**:
  - the parsers are function parameters, or parse only the canonical text;
  - times are valid civil dates with microseconds;
  - no time zones other than a fixed offset in seconds.
- **Floating point**: `total_seconds()` is modelled as exact integer arithmetic on microseconds, then truncation. `sleep(0.01 * insertion_delay)` is recorded as a pause carrying the configured delay.
- **Services**:
  - Dataiku's dataset, writer, recipe and trigger APIs;
  - gspread and `GoogleSheetsSession`. Opening a worksheet is an event; the title search and the new document's id are parameters;
  - the Drive client library, OAuth and `eval` of service-account credentials.

  These are outside calls. The constructor of `GoogleDriveSession` keeps only the root id and the flags.
- **`get_last_modified_by_file_id`**: it is the trigger's `fetch` parameter, so the exception it raises is not modelled.
- **Streaming download and upload**: `googledrive_download` is modelled as the choice of request, `DownloadPlan`, without the chunked copy. Upload media is known only by its mimetype.
- **Library calls as parameters**: `guess_type` and `slugify` are parameters. `lower()` is ASCII-only.
- **`writer.close()`, logging and the debug print** have no counterpart.
- **The size field** is taken as an already decoded natural number. `int()` failing on a malformed size is not modelled.
- **JSON error bodies** are reduced to the reason they name. A JSON body without that path, which would raise, is not modelled.
- **DriveUtils.RemoveDuplicatesMeaning**: `list(set(...))` has no defined order. The model keeps first occurrences in input order and proves only distinctness and membership.
- **AppendRecipe.FirstTypeKept**:
  - stated for names without "(", since a decorated key can collide with a later plain name;
  - stated from an empty dictionary, which is how the recipe calls it.
- **AppendRecipe.TabIds**: `get_tab_ids` returning None is mapped to the empty list. Both are falsy and fail the same check.
- **CivilTime.FormatGspread**: pinned down only for four-digit years. `%Y` below year 1000 differs between platforms.
- **Values the model does not take**:
  - `batch_size` and `insertion_delay` are integers; a None value is not modelled;
  - `isinstance(x, int)` does not single out booleans;
  - columns always have a name;
  - a "columns" key that holds null in a schema is read as a missing key, where `for column in None` raises a TypeError;
  - a `tabs_mapping` entry that holds null is not modelled, where `tab_mapping.get` on it raises an AttributeError.
- **SheetsCommon.ExtractCredentialsRaising**: a preset entry is modelled as absent, None, or a dict of strings. Other values are not modelled.
- **SheetsCommon.ExtractCredentialsQuiet**: the same restriction applies.
- **DriveSessionProperties.ItemFromPathFindsLastName**: stated for two or more tokens. A single token resolves to the root descriptor (`SingleTokenIsRoot`), whatever it is.
