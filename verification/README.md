# scrapydweb: a verified model

ScrapydWeb is a web front end for a cluster of scrapyd servers. It keeps a job table per
server, runs timer tasks, collects log statistics, raises alerts, and lets an administrator
edit its settings. This project models the stateful parts of it in Dafny and proves what they
promise. `dafny verify dfyconfig.toml` checks everything.

The database, the network, the clock and the log parser are inputs: a table is a map, a
session is an object with committed rows and unsaved writes, an answer of scrapyd is a value
or a function that supplies one.

## Contents

- **Job tables.** `JobModel` (rows and what one listed job does to a row), `ListingDedup` (the
  two scans that drop repeated keys), `OrmSession` (a session that filters on committed columns
  and returns unsaved writes), `Reconcile` (the page view, committed phase by phase, and the
  collector's cycle over one unflushed session), `ReconcileTheorems` (exactness, idempotence,
  the difference between the two, every history), `ReconcileColumns` (what each column of a row
  holds afterwards).
- **Servers and settings.** `ServerPattern` (a backtracking matcher run on the server pattern,
  and the scan it equals), `ServerStrings` (the printer), `ServerDerivation` (parsing, sort key,
  four parallel lists), `NoOpSave` (rows shown and saved unchanged), `SettingsRegistry`
  (coercion), `SettingsSave` (validate, persist, apply, roll back), `SettingsRuns` (any number
  of saves, and what a restart reads back), `SettingsValues` (which requests are accepted, and
  what becomes of one key), `SettingsUrls` (which server each public URL stands beside after
  saves, derivations and restarts).
- **Timer tasks.** `TaskExecutor` (two rounds over an aliased list), `TaskOutcomes` (which answers
  the outcomes carry), `TaskRetention` (the clean-up), `TaskInterleaving` (executions, clean-ups
  and deletions as interleaved steps), `TaskForm` (form to stored task and back), `TaskFormPost`
  (its fields one by one, and what is posted).
- **Log statistics and alerts.** `LogStats` (the size-keyed cache), `AlertEngine` (the persisted
  de-duplication of alerts), `AlertEffects` (what one evaluation sends, line by line), `AlertRules`
  (patterns, specificity, overlay).
- **Front end.** `ShellLexer` (words of a POSIX shell, Shell Command Language sections 2.2.1,
  2.2.2 and 2.3 of POSIX.1-2017), `CurlPreview` (the quoting printer), `CodeTree` (the tree of
  the files of an egg).
- **Shared.** `Options`, `Sequences`, `Texts` (Python string operations and integers as text),
  `SortedTexts`.

## Where the code does not do what one would expect

Each of these is a theorem with the exact condition, and is shown at an input.

- The collector's session is not flushed between its phases, so a job that was stored as
  waiting and is now listed as running is found by its committed empty start time and deleted.
  One cycle equals a page view without these rows (`ReconcileTheorems.TwinsDifferByLostRows`);
  the two agree exactly when there are none (`TwinsAgreeIff`), and the next cycle over the same
  listing restores them (`SecondCycleConverges`). It happens to every job that a page view
  stored as waiting and the next cycle finds started (`StartedJobIsLost`, and `OneJobIsLost`
  from the empty table).
- The collector does not drop repeated keys. A cycle is rolled back exactly when a key without a
  stored row is listed twice (`Reconcile.SyncServerJobs`); then it stores nothing of the listing,
  where a page view stores the job (`ReconcileTheorems.ListedTwiceStoresNothing`).
- Saving the server rows makes the submitted public URLs live in their submitted order next to
  the sorted servers. With distinct sort keys, every URL stands beside its server exactly when
  sorting the rows leaves the column of their URLs as it is, blank and repeated URLs included
  (`SettingsUrls.UrlsAlignedIff`); with distinct URLs that is when the rows were submitted in
  sorted order (`UrlsAlignedIffSubmittedSorted`, and `DescendingLosesUrls` for two servers, the
  later group first). Deriving the lists again aligns the URLs exactly when the live column is
  still the submitted one (`DerivingAlignsIff`): so setting the connectivity check alone aligns
  them the first time (`DerivingAgainAligns`), the second time only under the same condition as
  before (`DerivingTwiceAlignsIff`). A restart always aligns them, so it changes the live URLs
  exactly when they were not (`RestartAlignsUrls`).
- The size of a log is recorded before the log is fetched. A skipped log has the statistics of
  its present content if some visit took the parse branch when the log already had its present
  length; if none did, it has those of a shorter log, or none (`LogStats.SkipIsSoundIff`, and
  `StaleSkip` for a fetch that fails after the job has ended). A final log whose size has been
  recorded is never looked at again (`RecordedIsFinal`).
- An execution ends early, and leaves its counts at 0 and 0, when an attempt cannot look up
  credentials or the database refuses a job row. As long as its result row exists, that is so
  exactly when some selected node has no credentials or no name, or when an answer that is
  recorded has a status or a result the database does not take: null, a status longer than nine
  characters, and whatever else it refuses, such as a message that is a JSON object
  (`TaskExecutor.EndsEarlyIff` for the condition of `TaskExecutor.TaskExecutor.Run`, for every
  database that takes the texts the executor writes itself and the names of the servers).
  Recorded are the first round's successes and its answers from nodes that had failed before,
  and all answers of the second round. `EndsOnStatus` shows it for a node that answers
  `unavailable`, `EndsOnMessage` for a message that is no text, `EndsWithoutServer` and
  `EndsWithoutCredentials` for missing servers and missing credentials.
- A path listed only after one that continues it appears as a directory; the files of the tree
  are the listed paths exactly when there is no such path (`CodeTree.FilesAreThePathsIff`, and
  `ParentListedLate` for a path followed by its parent).
- An argument named `__task_data` is lost when a timer task is stored (`TaskForm.ArgsSurviveIff`,
  and `TaskDataArgumentIsLost` for a form the schema accepts), and saving an untouched task resets
  the scheduler options the form has no field for (`TaskForm.UntouchedEditIff`, and
  `TimezoneIsReset` for a task with a time zone).

## Model

| member | source | states |
|---|---|---|
| ListingDedup.DuplicateMemo.Announce | scrapydweb/routers/jobs.py:31-59 | A displaced job is announced once per process: a flash appears exactly when its string is new to the memo, a warning for a job that was running and an information for one that was waiting. |
| ListingDedup.ScanUnfinished | scrapydweb/routers/jobs.py:31-47 | The forward scan over the leading unfinished jobs keeps one record per key, the last one, and flashes once per newly announced duplicate. |
| ListingDedup.HandleUniqueConstraint | scrapydweb/routers/jobs.py:31-59 | The result has one record per key: the last unfinished one the forward scan meets, else the last finished one the backward scan meets. |
| ListingDedup.ChoiceCoversListing | scrapydweb/routers/jobs.py:31-59 | On a listing of unfinished jobs followed by finished ones, exactly the listed keys keep a record, and it is one of the listed records with that key. |
| ListingDedup.ChoiceIs | scrapydweb/routers/jobs.py:31-59 | The record chosen for a key is the last one without a finish time in the leading part of the listing, or, if there is none, the last one in the trailing part of finished ones. |
| ListingDedup.UniqueKeyStringIsUnique | scrapydweb/routers/jobs.py:31-59 | Two displaced jobs have the same memo string only if project/spider/job, start, finish and node agree, for names and times without a slash. |
| ListingDedup.LastIndex | scrapydweb/routers/jobs.py:31-59 | The last record of a key is at a position after which the key does not occur. |
| OrmSession.Session.Commit | scrapydweb/models.py:231-260 | A commit flushes changes, insertions and deletions if no inserted key is committed or inserted twice; otherwise the table is as before and the session empty. |
| Reconcile.Fill | scrapydweb/routers/jobs.py:62-107 | The attribute-by-attribute assignments, with revival of a soft-deleted row and the counts from the statistics, are the model's update of one row, whose columns `ReconcileColumns` names. |
| Reconcile.DbInsert | scrapydweb/routers/jobs.py:62-107 | The upsert phase commits the overlay and the new rows exactly when the unique constraint accepts the new rows, and otherwise leaves the table as it was. |
| Reconcile.DbCleanPending | scrapydweb/routers/jobs.py:110-116 | Removes exactly the committed rows without a start time that no listed job without a start time carries. |
| Reconcile.FinalizeStale | scrapydweb/services/jobs_sync.py:69-86 | Every committed running row whose key is not listed is finished in the session's view, and no other row changes. |
| Reconcile.FinalizeAndCommit | scrapydweb/routers/apiv2.py:120-150 | After the commit the table is the old one with exactly the unlisted running rows finished; the row invariant is kept. |
| Reconcile.Backfill | scrapydweb/routers/apiv2.py:151-172 | Exactly the displayed rows that lack counts and have statistics get their counts. |
| Reconcile.OverlayIsFold | scrapydweb/routers/jobs.py:62-107 | The upsert loop does to each row what the listed jobs with its key do to it one after the other, independently of all other rows. |
| Reconcile.AcceptsIff | scrapydweb/services/jobs_sync.py:23-59 | The new rows violate the unique constraint exactly when some key without a committed row is listed twice. |
| Reconcile.InsertedIsPointwise | scrapydweb/routers/jobs.py:31-116 | After de-duplication the constraint is never violated, and the result is, key by key, the old row updated by the chosen record. |
| Reconcile.ApiJobs | scrapydweb/routers/apiv2.py:116-172 | The whole page view never fails and leaves the table given by the three committed phases and the backfill; the row invariant is kept. |
| Reconcile.Upsert | scrapydweb/services/jobs_sync.py:23-59 | The unflushed upsert leaves the committed table alone: a loaded row carries the writes of every listed job with its key, and a fresh key gives a new waiting row each time it is listed, because no query finds the ones before. |
| Reconcile.SyncServerJobs | scrapydweb/services/jobs_sync.py:89-100 | One collector cycle commits the effect of its phases on the unflushed session unless a fresh key is listed twice, in which case nothing changes; the row invariant is kept. |
| Reconcile.InsertedInv | scrapydweb/routers/jobs.py:62-107 | The upsert keeps: waiting iff no start time, running implies no finish time, finished implies a finish time. |
| Reconcile.SyncInv | scrapydweb/services/jobs_sync.py:23-100 | A collector cycle keeps the same row invariant for any listing. |
| ReconcileTheorems.AsyncAt | scrapydweb/routers/apiv2.py:116-150 | The three phases act on each key alone: merge with the chosen record, drop if waiting and unlisted, finish if running and unlisted. |
| ReconcileTheorems.PassIsExact | scrapydweb/routers/apiv2.py:116-150 | After a page view the running rows are exactly the keys whose chosen record runs (except a finished execution deleted by the user), the rows without start exactly the listed waiting ones; unlisted finished rows are untouched and unlisted running ones finished. |
| ReconcileTheorems.PassIsIdempotent | scrapydweb/routers/apiv2.py:116-172 | Viewing the same listing twice equals viewing it once, up to the update time, for every table that keeps the row invariant. |
| ReconcileTheorems.ErasedEqualIff | scrapydweb/models.py:231-260 | Two tables are the same up to times if and only if they have the same keys and each row differs in its creation and update time alone. |
| ReconcileTheorems.TwinsDifferByLostRows | scrapydweb/services/jobs_sync.py:23-100 | For a well-formed listing with distinct keys, one collector cycle equals the page view (up to times) minus the rows committed as waiting and now listed as started. |
| ReconcileTheorems.TwinsAgreeIff | scrapydweb/services/jobs_sync.py:62-66 | The two implementations agree on a listing exactly when there are no such rows. |
| ReconcileTheorems.SecondCycleConverges | scrapydweb/services/jobs_sync.py:23-100 | A second cycle over the same listing restores agreement with the page view. |
| ReconcileTheorems.RunKeepsInv | scrapydweb/models.py:231-260 | Every history of page views, collector cycles and soft deletions keeps the row invariant (and keys unique). |
| ReconcileTheorems.EveryHistoryIsExact | scrapydweb/routers/apiv2.py:116-172 | From the empty table, after any history, a page view leaves as running and waiting exactly what scrapyd listed. |
| ReconcileTheorems.StartedJobIsLost | scrapydweb/services/jobs_sync.py:62-66 | After any history ending in a page view that stored a job as waiting, a collector cycle that finds it started deletes its row, and a page view would have kept it. |
| ReconcileTheorems.OneJobIsLost | scrapydweb/services/jobs_sync.py:62-66 | From the empty table: one waiting job viewed, then listed as started, and the two implementations leave different tables. |
| ReconcileTheorems.ListedTwiceStoresNothing | scrapydweb/services/jobs_sync.py:89-100 | A job listed twice before it has a row: the cycle stores nothing, the page view stores the job. |
| ReconcileColumns.ListedColumns | scrapydweb/routers/jobs.py:62-107 | After a page view the row of a listed key has the chosen record's own start, finish, runtime, process id and links, blanks as none; its pages and items are those of the statistics, none for a waiting job, and otherwise the ones the row had, or none after a revival. Only a soft-deleted finished execution listed again keeps its row. |
| ReconcileColumns.UnlistedColumns | scrapydweb/routers/apiv2.py:120-150 | An unlisted waiting row is gone; an unlisted running one is finished at the log's last time, or its last update, with the statistics' pages, items and runtime where there are any; every other one is as it was. |
| ReconcileColumns.BackfilledColumns | scrapydweb/routers/apiv2.py:151-172 | A displayed started row without pages takes both counts from the statistics; no other row changes. |
| ReconcileColumns.EveryHistoryShowsListing | scrapydweb/routers/apiv2.py:116-172 | From the empty table, after any history, a page view leaves each listed key (but an ignored execution) with the record chosen for it and these counts. |
| ReconcileColumns.SyncListedColumns | scrapydweb/services/jobs_sync.py:23-59 | After a collector cycle over any listing, repeated keys included, the row of a listed key shows the last record listed for it with the same rule for its counts, unless it was stored as waiting and is now listed as started only. |
| ReconcileColumns.SyncUnlistedColumns | scrapydweb/services/jobs_sync.py:69-86 | What becomes of an unlisted row in a cycle is what becomes of it in a page view, column by column. |
| ServerPattern.MatchIsScan | scrapydweb/utils/check_app_config.py:24-34 | On every string without a line break the backtracking lazy match succeeds, and its groups are those of one left-to-right scan for the delimiters. |
| ServerPattern.NoMatchAcrossLines | scrapydweb/utils/check_app_config.py:24-34 | A string with a line break before its last character does not match. |
| ServerPattern.FoundPartsAreClean | scrapydweb/utils/check_app_config.py:24-34 | A port or group that was found holds no line break. |
| ServerStrings.CurrentAuths | scrapydweb/routers/settings.py:110-145 | The table built by the loop gives each server its stored credentials, the last entry winning. |
| ServerStrings.SerializeRow | scrapydweb/routers/settings.py:110-145 | A row prints as user:pass@host:port#group with the sentinel replaced by the stored password. |
| ServerStrings.SerializeServerRows | scrapydweb/routers/settings.py:110-145 | The rows are accepted exactly when there is one and each is an object with a host (a null host being the text None); then strings and URLs are the rows' own, in order. |
| ServerStrings.AcceptedIff | scrapydweb/routers/settings.py:123-128 | Rows are refused exactly when one is no object or has a blank host. |
| ServerStrings.LastAuthWins | scrapydweb/routers/settings.py:116-120 | Of several entries for one server the credentials of the last one are the stored ones. |
| ServerStrings.HostAloneIsPrinted | scrapydweb/routers/settings.py:126-144 | A row with a host and no port, an empty one or 0 prints as host:6800, and one half of a pair of credentials is dropped. |
| ServerStrings.ScanPrinted | scrapydweb/routers/settings.py:110-145 | Scanning a printed row returns the row if and only if its fields are free of the delimiters that would end them early. |
| ServerStrings.SearchPrinted | scrapydweb/utils/check_app_config.py:24-34 | The regular expression reads a printed row back if and only if, besides, the string has no line break. |
| ServerDerivation.KeyLeqIsTotalOrder | scrapydweb/utils/check_app_config.py:373-377 | The sort key is compared by a total order. |
| ServerDerivation.SortEntries | scrapydweb/utils/check_app_config.py:373-380 | The sort lists each distinct entry once, in order of its key. |
| ServerDerivation.SortIsUnique | scrapydweb/utils/check_app_config.py:373-380 | Without ties there is one sorted list. |
| ServerDerivation.ParseServers | scrapydweb/utils/check_app_config.py:358-371 | Parsing fails exactly on an unreadable server; otherwise it collects the set of configured entries. |
| ServerDerivation.ServerSettings.CheckScrapydServers | scrapydweb/utils/check_app_config.py:342-388 | The derivation succeeds exactly when every server reads; then index i of the four lists is entry i of a sorted listing of exactly the configured entries, and otherwise no list changes. |
| ServerDerivation.IndicesAreEntries | scrapydweb/utils/check_app_config.py:358-388 | An entry is at some index if and only if some configured server reads as it. |
| ServerDerivation.PaddedOrderIsNumeric | scrapydweb/utils/check_app_config.py:373-377 | The zero-padded text of dotted octets orders them exactly as tuples of numbers. |
| ServerDerivation.ListedInOrder | scrapydweb/utils/check_app_config.py:373-380 | The derived servers are ordered by group, within a group by address, octet by octet as numbers for dotted quads, and at one address by port number. |
| ServerDerivation.TupleReads | scrapydweb/utils/check_app_config.py:358-371 | A configured tuple is read field by field: blank address and port become 127.0.0.1 and 6800, and credentials need both a name and a password. |
| ServerDerivation.HostAloneReads | scrapydweb/utils/check_app_config.py:358-371 | A string that is a host alone reads as that host with port 6800, without credentials or group. |
| NoOpSave.ServerRows | scrapydweb/routers/settings.py:34-51 | The loop yields one row per server, or fails when one has a port that is no integer. |
| NoOpSave.ShownHidesPasswords | scrapydweb/routers/settings.py:34-51 | For any settings, each shown row has the mask in place of a password its server has and nothing where it has none; name, group and URL are the server's own. |
| NoOpSave.HostAloneIsShown | scrapydweb/routers/settings.py:42-45 | A server without a port is shown with the port 6800. |
| NoOpSave.DerivedIsTidy | scrapydweb/utils/check_app_config.py:358-371 | Every derived entry has trimmed, defaulted fields and either both credentials or none. |
| NoOpSave.EntryRoundTrip | scrapydweb/utils/check_app_config.py:358-371 | Printing an entry with delimiter-clean fields and parsing it gives the entry back. |
| NoOpSave.ShownPrintsBack | scrapydweb/routers/settings.py:34-51 | The row shown for an entry prints as that entry again, the stored password standing in for the sentinel. |
| NoOpSave.NoOpSaveIsIdentity | scrapydweb/routers/settings.py:34-145 | Saving the rows as shown and deriving again gives the same servers, groups, credentials and public URLs when host:port and sort keys are distinct and the fields clean. |
| Texts.StripIs | scrapydweb/settings_registry.py:194-231 | Stripping takes off everything of the class at either end and nothing else. |
| SettingsRegistry.CoerceIsIdempotent | scrapydweb/settings_registry.py:194-231 | A coerced value is coerced to itself, for every field and value, NaN and infinity included. |
| SettingsRegistry.CoercedInType | scrapydweb/settings_registry.py:194-231 | What a coercion yields has the field's own type, respects its bound and choices, and holds only stripped, nonempty list items. |
| SettingsRegistry.FixedIffInType | scrapydweb/settings_registry.py:194-231 | A value is coerced to itself if and only if it is such a value. |
| SettingsRegistry.IntegersAre | scrapydweb/settings_registry.py:194-231 | An integer field takes integers not below its bound and cuts numbers towards zero; it refuses NaN, booleans, lists and objects, and infinity raises. |
| SettingsRegistry.IntegerTextsAre | scrapydweb/settings_registry.py:194-231 | The decimal text of a number is coerced as the number. |
| SettingsRegistry.TextsAre | scrapydweb/settings_registry.py:194-231 | Switches take booleans alone, texts and secrets any text, choices their choices, and null is for nullable fields. |
| SettingsRegistry.FloatsAre | scrapydweb/settings_registry.py:194-231 | A float field takes numbers not below its bound, NaN included, and what Python converts, but no booleans. |
| SettingsRegistry.TextListsAre | scrapydweb/settings_registry.py:194-231 | A list of texts is coerced item by item and in order: items are stripped, blank ones dropped, and an item that is no text refuses the list. |
| SettingsRegistry.IntListsAre | scrapydweb/settings_registry.py:194-231 | A list of integers has each item converted at its place; the first item that does not convert decides how the list fails. |
| SettingsRegistry.ItemsAre | scrapydweb/settings_registry.py:194-231 | As a list item an integer is itself, true is 1, the text of a number is the number, and null, an object or NaN is refused. |
| SettingsSave.UrlsDoNotMoveServers | scrapydweb/utils/check_app_config.py:358-388 | Whatever public URLs the raw servers are zipped with, servers, groups and credentials come out the same. |
| SettingsSave.SettingsApp.ValidateChanges | scrapydweb/utils/apply_settings.py:20-47 | The changes are valid exactly when each key is known, converts, and passes its own check against the merged settings; then the result is the coerced changes. |
| SettingsSave.SettingsApp.Mutate | scrapydweb/utils/apply_settings.py:81-112 | Exactly the changed keys become live, have the database as their source, and are pending if they need a restart, key by key. |
| SettingsSave.SettingsApp.ApplyChanges | scrapydweb/utils/apply_settings.py:50-114 | Applying fails exactly when the server lists cannot be derived, and then nothing has changed; otherwise the changes are live and the submitted URLs are in their submitted order. |
| SettingsSave.SettingsApp.PersistAndApply | scrapydweb/routers/settings.py:148-233 | Applying fails exactly when the server lists cannot be derived; then the stored rows, which had been written, and everything live are as before, and otherwise both hold the changes. |
| SettingsSave.SettingsApp.Save | scrapydweb/routers/settings.py:148-233 | A save succeeds exactly when the request is acceptable in the state it finds; a refused one leaves the whole state as it was, a successful one stores and makes live the coerced values and derives the server lists from the submitted strings, the raw ones, or not at all. |
| SettingsSave.RollbackRestores | scrapydweb/routers/settings.py:148-233 | Putting the overwritten rows back and removing the added ones undoes any write. |
| SettingsRuns.RunSaves | scrapydweb/routers/settings.py:148-233 | Any number of requests goes through a chain of states, each a save of the one before, and each answer is whether the request was acceptable in its state. |
| SettingsRuns.RunIsFaithful | scrapydweb/routers/settings.py:148-233 | After every prefix of a run, each key that an accepted request edited is stored in a form startup accepts and is live as stored, and so are the servers. |
| SettingsRuns.EveryEditSurvivesRestart | scrapydweb/app.py:71-130 | After any run of saves, accepted and refused, a restart reads every key that an accepted request submitted, other than a secret submitted as null, empty or the mask, with its live value. |
| SettingsRuns.ServersSurviveRestart | scrapydweb/app.py:71-130 | After any run in which an accepted request submitted servers, a restart reads server strings and URLs that derive again; what they derive is the live servers, groups and credentials unless two servers share a sort key. |
| SettingsRuns.RunKeepsBoots | scrapydweb/app.py:71-130 | No run of saves stores a value whose coercion would end a startup with an uncaught exception. |
| SettingsValues.AcceptedIff | scrapydweb/routers/settings.py:160-197 | A request is accepted if and only if its keys are registered and no bootstrap keys, each value that is not a secret left alone converts and passes its validator against the merged settings, its rows are objects with hosts, at least one, and the server lists can be derived. |
| SettingsValues.SubmittedKey | scrapydweb/routers/settings.py:173-204 | In an accepted save, a secret submitted as null, empty or the mask keeps its stored and live value or absence; any other text is stored and live as submitted; a key of another kind is stored and live as coerced, the empty text included. |
| SettingsValues.OtherKey | scrapydweb/routers/settings.py:148-233 | A key that is not submitted keeps its live value, and its stored one, but for the rows of submitted servers. |
| SettingsValues.SilenceKeeps | scrapydweb/routers/settings.py:148-233 | Through any run, a key keeps its stored and live value as long as every request is refused, leaves it out, or says "no change" of a secret. |
| SettingsValues.WordIsTaken | scrapydweb/routers/settings.py:148-233 | Any other request of a run sets the key, a secret to the submitted text and any other key to the coerced value. |
| SettingsValues.LastWordStands | scrapydweb/app.py:71-130 | If no later request of the run speaks about the key, that value is stored and live at the end of the run and is what a restart reads. |
| SettingsValues.BootedAt | scrapydweb/app.py:78-106 | At startup the table decides a key if its value there is usable, else the environment, else the defaults. |
| SettingsUrls.UrlsAlignedIff | scrapydweb/utils/apply_settings.py:50-87 | After an accepted submission of servers with distinct sort keys, every live URL stands beside its own server if and only if sorting the submitted servers leaves the column of their URLs as it is, blank and repeated URLs included. |
| SettingsUrls.UrlsAlignedIffSubmittedSorted | scrapydweb/utils/apply_settings.py:50-87 | Servers submitted in sorted order stand beside their URLs, and with distinct URLs only those do. |
| SettingsUrls.DerivingAlignsIff | scrapydweb/utils/apply_settings.py:50-77 | A later derivation puts every URL beside its server if and only if the live column of URLs is still the submitted one. |
| SettingsUrls.DerivingAgainAligns | scrapydweb/utils/apply_settings.py:50-77 | A save of the connectivity check alone, after the submission, puts every URL beside its server, whatever the submitted order and URLs were. |
| SettingsUrls.DerivingTwiceAlignsIff | scrapydweb/utils/apply_settings.py:50-77 | A second such save keeps every URL beside its server if and only if sorting the submitted servers leaves the column of their URLs as it is. |
| SettingsUrls.SortedStaysAligned | scrapydweb/utils/apply_settings.py:50-87 | Servers submitted in sorted order keep their URLs, distinct or not, through any run of saves that submit no servers. |
| SettingsUrls.DescendingLosesUrls | scrapydweb/utils/apply_settings.py:78-87 | Two well-formed servers submitted with the later group first, one of them perhaps without a URL, are accepted, and no resulting state has every URL beside its server. |
| SettingsUrls.RestartAlignsUrls | scrapydweb/app.py:71-130 | After any run whose last submission of servers was this one, a restart derives exactly the submitted servers, each beside its own URL; it shows the live servers, and the live URLs if and only if these were aligned. |
| SettingsUrls.NoOpSaveKeepsState | scrapydweb/routers/settings.py:34-145 | Submitting the rows as shown is accepted and leaves the live settings, servers, groups, credentials and URLs as they are, aligned or not. |
| TaskExecutor.TaskExecutor.Schedule | scrapydweb/services/tasks.py:103-140 | A first failure joins the retry list and yields no result; a second one yields its failure; a success yields its result; each valid node is posted to once; and a node without an entry in the list of credentials raises before it is posted to. |
| TaskExecutor.TaskExecutor.InsertJobResult | scrapydweb/services/tasks.py:142-152 | A row is inserted unless the result is gone; the call raises exactly when a present result gets a node without a name, or a status or result that is null, too long, or otherwise refused by the database. |
| TaskExecutor.TaskExecutor.Round | scrapydweb/services/tasks.py:77-101 | A round handles every occurrence of a copy of its list once and posts to the valid ones in order; it ends early exactly when an attempt lacks credentials or records a row that cannot be inserted. |
| TaskExecutor.TaskExecutor.Run | scrapydweb/services/tasks.py:77-101 | An execution ends early, storing no counts, exactly when an attempt lacks credentials or a row meant for a present result cannot be inserted. Otherwise its outcomes are those of both rounds, the second over exactly the first one's failures, the pass count is the number of outcomes with the status ok and the fail count the number of the others, which add up to the number selected; the job rows are those outcomes, and the counts are stored if the result still exists. |
| TaskExecutor.EveryOccurrenceCounted | scrapydweb/services/tasks.py:77-101 | Whatever is answered, the nodes of the outcomes of both rounds are the selected nodes as a multiset. |
| TaskExecutor.AtMostTwoPosts | scrapydweb/services/tasks.py:77-140 | A node is posted to once per selected valid occurrence and at most once more, so at most twice per occurrence. |
| TaskExecutor.FailuresAreSelected | scrapydweb/services/tasks.py:83-95 | The retry list after the first round holds selected nodes only, each once. |
| TaskExecutor.EndsEarlyIff | scrapydweb/services/tasks.py:77-152 | While its result row exists, an execution runs to its end if and only if every selected node has a name and credentials and the database takes the status and the result of every recorded answer. |
| TaskExecutor.NamesAre | scrapydweb/services/tasks.py:146-149 | A node that is not configured is named by the first server's host and port, or, if that has no port, exactly when its number counts back into the list. |
| TaskOutcomes.RowsCarryAnswers | scrapydweb/services/tasks.py:103-140 | The outcomes of configured nodes have the status code, status and result of the answers to posts of their own, to the same node and in order, or -1 and error if the post raised; the others have the index error. A post leads to an outcome exactly when it is of the second round, is answered 200 and ok with the version recorded, or an earlier post to its node was not. |
| TaskOutcomes.RetriedInOrder | scrapydweb/services/tasks.py:103-140 | The retry list holds exactly the nodes of failed attempts, each once, in the order in which they first failed. |
| TaskOutcomes.InsertedAre | scrapydweb/services/tasks.py:142-152 | The job rows are the outcomes at exactly the positions where the result row is present, in order. |
| TaskExecutor.SecondRoundRecords | scrapydweb/services/tasks.py:128-140 | Every answer of the second round is recorded. |
| TaskExecutor.EndsOnStatus | scrapydweb/models.py:325-335 | One node that answers twice with the status `unavailable`, or with a null status, ends the execution early. |
| TaskExecutor.EndsOnMessage | scrapydweb/services/tasks.py:142-152 | So does a node that answers twice with an error whose message, such as a JSON object, the result column does not take. |
| TaskExecutor.EndsWithoutServer | scrapydweb/services/tasks.py:142-152 | So does any node when no server is configured. |
| TaskExecutor.EndsWithoutCredentials | scrapydweb/services/tasks.py:56-57 | So does the second of two servers when credentials are listed for one. |
| TaskRetention.OrderByTimeDesc | scrapydweb/routers/tasks.py:178-193 | The query lists the results newest first, each once. |
| TaskRetention.ResultTable.KeepNewest | scrapydweb/routers/tasks.py:178-193 | The limit removes finished results only, leaves that many of them (or all there are), and removes none that is newer than one that stays. |
| TaskRetention.ResultTable.DeleteOutdated | scrapydweb/routers/tasks.py:178-193 | The clean-up removes what the limit pushes out and then what is too old, with their job rows. |
| TaskRetention.OutdatedIsPushedOut | scrapydweb/routers/tasks.py:178-193 | Everything after the first limit results of the ordered query is what the limit may remove. |
| TaskRetention.CleanUpIsSafe | scrapydweb/routers/tasks.py:178-193 | A result with counts 0 and 0 survives; any other, all-failed ones too, survives exactly when it is neither pushed out nor older than the days allow; and what survives is unchanged. |
| TaskRetention.LimitIsMet | scrapydweb/routers/tasks.py:178-193 | After a clean-up no more results with counts are left than the limit; without an age that many are, or all; and a young one that is gone is no newer than any that is left. |
| TaskRetention.JobRowsFollow | scrapydweb/models.py:309-318 | A job row survives a clean-up exactly when its result does. |
| TaskInterleaving.StepKeepsInv | scrapydweb/services/tasks.py:77-152 | Every step of an execution, a clean-up or a user keeps the invariant that ties counts, job rows, results and running executions together. |
| TaskInterleaving.RunKeepsInv | scrapydweb/services/tasks.py:77-152 | Every state of every interleaving satisfies it. |
| TaskInterleaving.CleanUpSparesRunning | scrapydweb/routers/tasks.py:178-193 | Under any interleaving, a clean-up removes only results with stored counts, never one whose execution is still going on. |
| TaskInterleaving.StoredCountsAreRows | scrapydweb/services/tasks.py:94-101 | Under any interleaving, a surviving result with stored counts has exactly that many ok and non-ok job rows. |
| TaskInterleaving.CountRowsIs | scrapydweb/services/tasks.py:142-152 | The job rows of a result with an outcome are counted by their positions. |
| TaskInterleaving.EndedCountsSurvive | scrapydweb/services/tasks.py:94-101 | When an execution has ended and its result survives, the stored counts are its own, its job rows add up to them, and they count every outcome of its rounds. |
| TaskInterleaving.StoredCountsAreTheNodes | scrapydweb/services/tasks.py:83-101 | Under any interleaving and for any answers, the stored counts of a surviving execution are the numbers of outcomes of both rounds whose status is ok and is not; they add up to the number of selected nodes, and so do its job rows. |
| TaskInterleaving.JobRowsHaveResults | scrapydweb/routers/tasks.py:71-101 | No job row outlives its result. |
| LogStats.Collector.FindExtension | scrapydweb/services/logstats.py:95-107 | The extension kept, if it still answers, else the first configured one that answers. |
| LogStats.Collector.VisitJob | scrapydweb/services/logstats.py:89-137 | One visit skips, records the size only, or parses, and the row and the counter are what that outcome says. |
| LogStats.UnreachedIff | scrapydweb/services/logstats.py:95-107 | A job is passed over exactly when its log answers neither under the known extension nor under any configured one. |
| LogStats.SkippedIff | scrapydweb/services/logstats.py:109-111 | A reached log is left alone if and only if it has its recorded size and the job has ended or its statistics give a finish reason other than N/A; so a running job's log of the same size is parsed again. |
| LogStats.VisitedIs | scrapydweb/services/logstats.py:113-137 | Otherwise the extension and the size are recorded, and the statistics are those of the probed or fetched body; a log of more than 20 MiB and one that cannot be fetched keep the old ones. |
| LogStats.Collector.CollectServer | scrapydweb/services/logstats.py:83-160 | The loop over the listed jobs is the fold of the visits. |
| LogStats.JobsAreIndependent | scrapydweb/services/logstats.py:83-137 | The row of a job depends only on that job's own visits. |
| LogStats.FollowIsRowThrough | scrapydweb/services/logstats.py:89-137 | A history that also tracks which log the last parse saw has the row the collector keeps. |
| LogStats.FollowKnows | scrapydweb/services/logstats.py:89-137 | For an append-only log the tracked parse is always a prefix of the current log, and the statistics are its. |
| LogStats.SkipIsSoundIff | scrapydweb/services/logstats.py:109-118 | The statistics of a skipped job are exactly those of the current log if some visit took the parse branch when the log had its present length, and otherwise those of a shorter log or none; so for a parser that tells the shorter logs from it, if and only if. |
| LogStats.ParsedSinceIsBasis | scrapydweb/services/logstats.py:109-137 | Some visit has parsed the log at its present length if and only if the last parse saw exactly the present log. |
| LogStats.StaleSkip | scrapydweb/services/logstats.py:109-128 | A log seen while its job ran, grown, and not fetched after the job had ended is skipped from then on, with the statistics of its first line. |
| LogStats.UntroubledSkipsAreSound | scrapydweb/services/logstats.py:109-137 | Without a failed fetch or an oversized log every skip is sound. |
| LogStats.RecordedIsFinal | scrapydweb/services/logstats.py:109-128 | A final log whose size has been recorded is never parsed again, whatever its statistics are. |
| LogStats.FrozenParsedAtMostOnce | scrapydweb/services/logstats.py:109-138 | A finished log that no longer grows is parsed at most once, whatever the network does. |
| LogStats.ParsesAre | scrapydweb/services/logstats.py:89-138 | The parses counted there are exactly the visits that parse. |
| AlertEngine.StatsRow.FireKinds | scrapydweb/services/alerts.py:96-110 | The loop over the kinds yields the lines, the strongest action and the remembered counts of exactly the kinds that fire. |
| AlertEngine.StatsRow.EvaluateAlerts | scrapydweb/services/alerts.py:82-154 | One evaluation has the effects that `AlertEffects` writes out and leaves that remembered state, although it writes the state only when something changed. |
| AlertEngine.FiredIffFires | scrapydweb/services/alerts.py:96-104 | A kind fires exactly when its threshold is positive, reached, and the count is not the remembered one. |
| AlertEngine.CancelsAreTheJoin | scrapydweb/services/alerts.py:106-141 | A running job is cancelled twice if a fired kind says force-stop, once if none does but one says stop, and otherwise not at all. |
| AlertEffects.CountLinesAre | scrapydweb/services/alerts.py:94-104 | A kind has a line, with its count and threshold, if and only if the threshold is positive, the count reaches it and is not the remembered one. |
| AlertEffects.NoticesAre | scrapydweb/services/alerts.py:110-136 | The finish line is there exactly for a job outside any group that has ended, unnoticed before, with the notice switched on; the running line exactly for a running job whose interval is over. |
| AlertEffects.ActionsAre | scrapydweb/services/alerts.py:105-141 | On a running job there are two cancels if some kind with a line says force-stop, else one if some says stop, and a line saying which; otherwise none. |
| AlertEffects.LinesInOrder | scrapydweb/services/alerts.py:94-141 | No line comes twice, and they come in the order of the kinds, then finish, running and action. |
| AlertEffects.SentWhen | scrapydweb/services/alerts.py:116-122 | A message goes out exactly in working time and for at least one line; a group's report exactly for an end not noticed before in a group that is to be notified, at any time. |
| AlertEffects.RememberedIs | scrapydweb/services/alerts.py:101-144 | Remembered are the counts of the kinds with a line beside the earlier ones, that the end was noticed, and when the last running line was recorded. |
| AlertEffects.ThroughIs | scrapydweb/services/alerts.py:82-154 | Over a run, each evaluation starts from the state that the one before it left. |
| AlertEffects.AlertedAre | scrapydweb/services/alerts.py:94-104 | The alerted counts that AlertsOfOneKind bounds are those of exactly the evaluations that have a line for the kind. |
| AlertEffects.RunningTimesAre | scrapydweb/services/alerts.py:129-136 | The times that RunningNotices bounds are those of exactly the evaluations that have the running line. |
| AlertEffects.FinishNoticesAre | scrapydweb/services/alerts.py:110-127 | The notices that FinishNoticedOnce counts are exactly the evaluations that notice the end, by a line or for a group. |
| AlertEngine.AlertedIncreases | scrapydweb/services/alerts.py:96-104 | With nondecreasing counts the alerted counts of a kind strictly increase over a run, and the last one is remembered. |
| AlertEngine.AlertsOfOneKind | scrapydweb/services/alerts.py:96-104 | They lie between the threshold and the final count, so there are at most final - threshold + 1 of them. |
| AlertEngine.FinishNoticedOnce | scrapydweb/services/alerts.py:112-130 | Over evaluations whose states are kept, the finish of a job is noticed at most once, and once if and only if some evaluation saw it finished with somebody to tell. |
| AlertEngine.RunningSpaced | scrapydweb/services/alerts.py:132-139 | Any two running notices are at least the interval apart. |
| AlertEngine.RunningNotices | scrapydweb/services/alerts.py:132-139 | A span of time holds at most floor(span / interval) + 1 running notices. |
| AlertEngine.CyclesSeeCommittedRun | scrapydweb/services/logstats.py:172-183 | When cycles may be rolled back, each finds the state that the evaluations of the committed cycles before it have left, so the results about runs speak about those. |
| AlertEngine.FinishNoticedIff | scrapydweb/services/logstats.py:172-183 | A cycle notices the finish, once, if and only if it is due there and was due in no committed cycle before; a rolled-back cycle sends its notice and forgets it. |
| AlertRules.PlainPatternIsExact | scrapydweb/services/alert_rules.py:58-74 | A pattern without special characters matches itself only. |
| AlertRules.StarMatchesAll | scrapydweb/services/alert_rules.py:58-74 | The pattern * matches everything. |
| AlertRules.GlobText | scrapydweb/services/alert_rules.py:69-73 | Text in front of a pattern stands for itself, ... |
| AlertRules.GlobStar | scrapydweb/services/alert_rules.py:69-73 | ... a star for any text, ... |
| AlertRules.GlobAny | scrapydweb/services/alert_rules.py:69-73 | ... a question mark for one character, ... |
| AlertRules.GlobClass | scrapydweb/services/alert_rules.py:69-73 | ... and a bracket expression for one character of its class. |
| AlertRules.HigherScoreIsNarrower | scrapydweb/services/alert_rules.py:58-66 | Of two patterns matching the same name, the one with the higher score matches nothing the other does not. |
| AlertRules.MatchingRules | scrapydweb/services/alert_rules.py:69-74 | Exactly the matching rules, least specific first. |
| AlertRules.OverlayRule | scrapydweb/services/alert_rules.py:87-105 | One rule writes exactly the settings it speaks about. |
| AlertRules.EffectiveSettings | scrapydweb/services/alert_rules.py:77-106 | Each setting is the global one overlaid by the matching rules in order. |
| AlertRules.LastSpeakerWins | scrapydweb/services/alert_rules.py:87-106 | Each overlaid setting is the global one if no rule sets it, and otherwise that of a most specific rule that does. |
| AlertRules.MostSpecificDecides | scrapydweb/services/alert_rules.py:77-106 | With distinct ids, the most specific matching rule that sets a setting decides it. |
| AlertRules.ThresholdIsDecided | scrapydweb/services/alert_rules.py:58-106 | Of the rules that apply and give a threshold for a kind, the one that beats the others gives threshold and actions: a plain project pattern beats one with a wildcard, that beats the lone star, whatever the spider patterns; then the spider patterns decide the same way, then the larger id. Without such a rule the global values stay. |
| AlertRules.NoticesAreDecided | scrapydweb/services/alert_rules.py:58-106 | The same for the finish notice and the running interval. |
| AlertRules.ChannelsAreDecided | scrapydweb/services/alert_rules.py:58-106 | The same for slack, telegram and email, each on exactly if the deciding rule lists it. |
| AlertRules.OthersStay | scrapydweb/services/alert_rules.py:77-106 | No rule changes any other setting. |
| AlertRules.UnsetStaysGlobal | scrapydweb/services/alert_rules.py:77-106 | A setting no matching rule sets stays global. |
| AlertRules.GroupsStayTogether | scrapydweb/services/alert_rules.py:88-105 | Threshold and actions of a kind come from the same rule, so do the channels, and a kind never has both actions. |
| AlertRules.OrderOfRulesIsIrrelevant | scrapydweb/services/alert_rules.py:69-106 | Listing the rules in another order gives the same settings. |
| CurlPreview.BuildCurlPreview | frontend/src/lib/schedule-payload.ts:99-116 | The pushed and joined parts are the command for the form's fields. |
| CurlPreview.LexEscaped | frontend/src/lib/schedule-payload.ts:93-95 | A shell reads the quoted form of any string as that string. |
| CurlPreview.LexShellQuote | frontend/src/lib/schedule-payload.ts:93-95 | The same for the quoting as it is used, which leaves harmless strings bare. |
| CurlPreview.QuotedIff | frontend/src/lib/schedule-payload.ts:93-95 | A field of letters, digits and _ - . = : / @ stays bare, any other is put in single quotes. |
| CurlPreview.LexCommand | frontend/src/lib/schedule-payload.ts:99-116 | A shell reads the command for any nonempty fields as curl, the URL, and a flag and the field for each. |
| CurlPreview.PreviewRoundTrips | frontend/src/lib/schedule-payload.ts:99-116 | Reading the preview, line continuations included, yields exactly curl, the URL and each flag and field, for arbitrary settings and arguments. |
| TaskFormPost.WordsAre | frontend/src/lib/schedule-payload.ts:99-116 | Each field of the command is one word after its flag: the raw flag, or the encoding one where the field needs it. |
| TaskFormPost.PayloadOrder | frontend/src/lib/schedule-payload.ts:99-116 | The fields are project, version unless it is the latest, spider and job id, then the filled settings sorted, then the filled arguments as given. |
| TaskFormPost.PreviewIsThePost | scrapydweb/routers/schedule.py:65-142 | The command shown in the browser sends exactly the fields that the check page leaves to be posted to scrapyd, for a valid form that runs now under a given job id. |
| CurlPreview.SanitizeJobid | frontend/src/lib/schedule-payload.ts:39-41 | Every character outside letters, digits, _ and - becomes -, and nothing else changes. |
| CodeTree.Descend | frontend/src/pages/code.tsx:30-39 | One step down finds the child of that name or adds it; the tree stays a tree. |
| CodeTree.Insert | frontend/src/pages/code.tsx:27-40 | Walking a path adds exactly the places along it, and what was there keeps its kind. |
| CodeTree.SortChildren | frontend/src/pages/code.tsx:42-44 | The children are reordered, directories first and then by name. |
| CodeTree.SortRec | frontend/src/pages/code.tsx:41-46 | All children lists at and below the node are sorted, the others unchanged, and the tree stays a tree. |
| CodeTree.BuildTree | frontend/src/pages/code.tsx:25-49 | The result is a tree of fresh nodes at exactly the places the paths pass through; names and paths are those of the places, directories those the first path to arrive went beyond, and in every children list a directory comes before a file and otherwise the names are in order. |
| CodeTree.FirstDecides | frontend/src/pages/code.tsx:33-37 | The first path to reach a place decides whether it is a directory. |
| CodeTree.FilesAreListedFirst | frontend/src/pages/code.tsx:25-40 | A place is a file exactly when it was listed before any path went through it. |
| CodeTree.FilesAreThePathsIff | frontend/src/pages/code.tsx:25-40 | The files are exactly the listed paths if and only if no path is listed only after one that continues it. |
| CodeTree.ParentListedLate | frontend/src/pages/code.tsx:25-40 | A path `a` listed after `a/b` comes out as a directory and not as a file. |
| CodeTree.FilePathsAreTheInput | frontend/src/pages/code.tsx:25-49 | If no path continues another, the path texts of the file nodes are exactly the given strings. |
| CodeTree.OrderIsIrrelevantIff | frontend/src/pages/code.tsx:25-40 | Every order of the paths gives the same places and directories if and only if no path continues another. |
| CodeTree.NamesAreUnique | frontend/src/pages/code.tsx:33-37 | Siblings have different names. |
| CodeTree.RankedIsUnique | frontend/src/pages/code.tsx:41-46 | A sorted list of siblings is determined by its set of names and kinds, if no two names tie. |
| CodeTree.SameTree | frontend/src/pages/code.tsx:25-49 | Two builds from any two orders of the same prefix-free paths have the same places and the same children in the same order. |
| CodeTree.DirectoriesFirst | frontend/src/pages/code.tsx:41-46 | In every sorted list all directories come before all files, and both parts are in the order of their names. |
| TaskForm.BuildScheduleForm | frontend/src/lib/schedule-payload.ts:43-74 | The posted fields are those of the form, timer fields only in timer mode, one tick per node. |
| TaskForm.ScheduleCheck | scrapydweb/routers/schedule.py:65-142 | The dictionary built step by step is the one the specification gives: fixed fields, accepted settings sorted, accepted arguments, timer data on top. |
| TaskForm.Selected | scrapydweb/routers/schedule.py:154-156 | Exactly the ticked nodes that exist, in increasing order. |
| TaskForm.TaskTable.ScheduleRun | scrapydweb/routers/schedule.py:146-233 | A timer form adds a row, or replaces the edited one unless the scheduler refuses the job; it fails without a trace exactly when no ticked node exists, no credentials are listed for the first one, the edited task is gone, the timer data is no dictionary, or a text is too long for its column. |
| TaskForm.Submit | frontend/src/pages/schedule.tsx:206-217 | Submitting a valid timer form whose first node can be addressed and whose texts fit the columns stores the row of that form, for the nodes there are. |
| TaskForm.SplitKeyVal | frontend/src/pages/schedule.tsx:94-97 | Splitting KEY=VAL at the first = gives back key and value for every key without =. |
| TaskForm.SettingsSurvive | frontend/src/pages/schedule.tsx:94-97 | Stored settings come back as the same multiset, sorted, and a second time unchanged. |
| TaskForm.EntriesRoundTrip | frontend/src/pages/schedule.tsx:98-100 | Reading the sorted entries of stored arguments gives the stored arguments. |
| TaskForm.ArgsSurvive | frontend/src/pages/schedule.tsx:98-100 | Arguments come back as the same pairs, sorted by key, except one named __task_data, and a second time unchanged. |
| TaskForm.RoundTrip | frontend/src/pages/schedule.tsx:87-129 | A valid timer form, stored and loaded, has the same settings and arguments sorted, the jobid sanitized or filled in and the existing nodes in order; each schedule field comes back as entered, a blank minute or second as 0 and any other blank one as *; and it is valid again. |
| TaskFormPost.StoredRow | scrapydweb/routers/schedule.py:146-233 | The stored row has the form's project, spider, version, name, nodes and schedule, field by field, blanks filled in. |
| TaskFormPost.StoredArgumentsAre | scrapydweb/routers/schedule.py:100-133 | Its arguments are exactly the form's, except one named __task_data, and its settings the form's as KEY=VAL, sorted. |
| TaskFormPost.TimerTravels | scrapydweb/routers/schedule.py:121-137 | The checked data carry the timer's action, task, name and schedule in timer mode, and none otherwise, unless an argument takes the name. |
| TaskFormPost.KeptMembers | frontend/src/lib/schedule-payload.ts:43-74 | Exactly the pairs with a name and a value are posted. |
| TaskFormPost.NamesAre | scrapydweb/routers/schedule.py:100-114 | A setting is named by a capital letter and up to thirty capitals, digits and underscores, an argument by a letter or underscore and any number of letters, digits and underscores. |
| TaskFormPost.FormFitsIff | scrapydweb/models.py:266-297 | The row of a valid timer form fits the columns if and only if no text of the form, and no filled-in job id, is longer than 255 characters. |
| TaskFormPost.AddressableIff | scrapydweb/routers/schedule.py:154-164 | The first node there is can be addressed if and only if some ticked node exists and has credentials listed. |
| TaskForm.ArgsSurviveIff | scrapydweb/routers/schedule.py:119-124 | All arguments come back if and only if none is named __task_data. |
| TaskForm.TaskDataArgumentIsLost | scrapydweb/routers/schedule.py:119-124 | A form with the one argument __task_data is valid, and its stored row has no argument. |
| TaskForm.SecondTripIsIdentity | frontend/src/pages/schedule.tsx:87-129 | Saving a loaded form and loading it again gives the same form. |
| TaskForm.UntouchedEditIff | scrapydweb/routers/schedule.py:196-203 | Saving a loaded form leaves the row unchanged if and only if the scheduler options without a form field have their defaults. |
| TaskForm.TimezoneIsReset | scrapydweb/routers/schedule.py:196-203 | A row with a time zone, loaded and saved as it is, is the same row with the default scheduler options. |

## Left out

- ReconcileTheorems.TwinsDifferByLostRows: assumes listed keys are distinct and unfinished jobs come first, as the collector itself does; surrogate ids are not modelled.
- ReconcileTheorems.EveryHistoryIsExact: page views and collector cycles are atomic; the clock is read once per pass.
- Reconcile.Backfill: which rows a page displays is an input; the query that selects them is not modelled.
- LogStats.SkipIsSoundIff: a job's log exists under one extension for its whole life and only grows; a history is that of the committed cycles, since what a rolled-back cycle has seen is forgotten with its rows.
- LogStats.FrozenParsedAtMostOnce: counts the parses of committed cycles; a rolled-back cycle parses the log again.
- AlertRules.HigherScoreIsNarrower: which characters a bracket expression stands for is a parameter, so the theorem holds for every reading of bracket expressions.
- AlertEngine.RunningNotices: the interval is the same in every evaluation; like AlertsOfOneKind it is about evaluations whose states are kept, which by CyclesSeeCommittedRun are those of the committed cycles.
- TaskExecutor.TaskExecutor.InsertJobResult: which values other than null the database takes in the status and result columns is a parameter; server names over 255 characters are not modelled.
- Reconcile.Fill: the links and dates of a listed job are taken as already extracted from the page.
- ServerDerivation.PaddedOrderIsNumeric: parts of one to three decimal digits, equally many in both addresses; host names are ordered as text and have no numeric counterpart.
- SettingsRuns.ServersSurviveRestart: no resets to default in the run, and the derivation at startup without the connectivity check; of two servers with one sort key the order is not determined.
- SettingsUrls.UrlsAlignedIff: sort keys of the submitted servers are distinct and their fields clean; with equal keys the order of the derived servers is that of a Python set.
- SettingsSave.SettingsApp.Save: a save is atomic; the source awaits between reading the prior rows, writing, applying and rolling back, so two saves at once can interleave there.
- CurlPreview.PreviewRoundTrips: the server's host:port has no character that is special to a shell; what curl makes of & and % in a value is not modelled.
- TaskFormPost.PreviewIsThePost: without a job id the preview shows a placeholder where the page fills in the time; the credentials that the server adds to its own command are not modelled.
- ListingDedup.UniqueKeyStringIsUnique: with a slash in a name two jobs can share a memo string.
- SettingsValues.LastWordStands: no resets to default in the run; a key outside the registry is dropped at startup.
- TaskForm.ScheduleCheck: takes the fields this form posts; the older free-text fields, the user agent list and the file the dictionary is pickled into are not modelled.
- TaskForm.TaskTable.ScheduleRun: JSON text is modelled by its value; the scheduler's verdict on the job is an input; a direct run's request, and running one checked file a second time, are not modelled.
- CodeTree.SameTree: localeCompare is any total preorder; siblings it cannot tell apart keep their insertion order.
- TaskInterleaving.RunKeepsInv: ids are never reused and foreign keys are enforced, as PostgreSQL and MySQL do.
- Rows of the job table are values in the session's maps, so aliasing between two loaded objects of one row is not modelled.
- Listings and parsed logs are given: the HTML pattern of the jobs page, malformed times and process ids, and the log parser are not modelled.
- Validators of single settings, the conversions of text and of integers to floating point, digits beyond 0 to 9 and the connectivity check are parameters or left out.
- JavaScript compares strings by UTF-16 units and Python by code points; the model uses code points for both.
- The backend's own printer of curl commands, which joins lines with a backslash and CRLF, unlike the printer in the browser that says it mirrors it.
- Sending of mails and messages, egg building, deployment, authentication, metrics and the dashboard.
- The text of messages and logs, except the lines an alert consists of.
