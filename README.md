# ridge_base core, modelled in Dafny

A model of the core of ridge_base, a command-line assistant that keeps per-project
memory in a relational store. It covers:

- **the store** (`store.dfy`): the five tables of `src/models.py` held as sequences
  in table order, with id sequences and a logical clock. Inserting and updating
  rows respects the column rules: `String(n)` ceilings, non-null columns, foreign
  keys and the unique project name. A `Database` class holds the tables, and its
  methods are the commits the managers perform.
- **the checkpoint manager** (`context.dfy`, `src/context.py`): the
  auto-checkpoint rule, the token estimate, checkpoint creation, checkpoint
  resolution and the reset that archives later conversations.
- **the memory facade** (`memory.dfy`, `src/memory.py`): project activation,
  conversation and decision logging with the inline checkpoint check, search,
  recent activity and the context handed to the language model.
- **the file tracker** (`file_tracker.dfy`, `file_sync.dfy`, `tracker.dfy`,
  `src/file_tracker.py`): the file filter, the project scan, the changed-file
  report, single-file tracking, the whole-project sync and cached insights.
- **agents** (`agents.dfy`, `src/agents.py`): the markdown section parser, the
  system prompt, and agent choice by name and by flags.
- **backups** (`backups.dfy`, `src/backup_manager.py`): backup names, parsing
  them back in listings, sorting, and the age-based cleanup.
- **model selection** (`api.dfy`, `src/api.py`): the flag rule over the model table.

The rest of the world becomes explicit inputs:

- the clock is the store's counter;
- a file walk is a sequence of entries with their size (`None` when `stat` fails);
- file contents are a digest function (`None` when the file cannot be read);
- the backup directory is a listing of entries;
- the time of day is a value passed in.

Shared helpers live in `wrappers.dfy` (`Option`), `seqs.dfy` (filtering,
newest-first windows, a descending insertion sort) and `strings.dfy` (`split`,
`join`, `strip`, case-insensitive search, `basename`, `os.path.join`).

Where the behaviour of the code differs from what its comments or messages
suggest, the model follows the code:

- the status view counts archived conversations;
- a reset reports how many rows its query returned, archived ones included, so a
  repeated reset reports the same non-zero number while changing nothing;
- `cleanup_old_backups` compares the last access time of each backup, although
  its comment speaks of the modification time.

## Model

| member | source | states |
|---|---|---|
| Store.EmptyTablesValid | src/models.py:10-86 | the empty store meets every column, key and ordering rule |
| Store.ValidIsChronological | src/models.py:29-38 | in a valid store, conversations in table order have increasing timestamps, so "newest first" is the table read backwards |
| Store.ValidTimestampsIncrease | src/models.py:29-75 | in a valid store, conversations, decisions and checkpoints all have timestamps increasing in table order |
| Store.LatestConversationId | src/context.py:73-77 | the id picked is 0 or the id of one of the project's conversations |
| Store.LatestConversationIsNewest | src/context.py:73-77 | the id is 0 exactly when the project has no conversation, and no conversation of the project, archived or not, has a greater id |
| Store.AddConversationValid | src/models.py:29-38 | appending a conversation that fits its columns and names an existing project keeps the store valid |
| Store.AddDecisionValid | src/models.py:46-54 | appending a decision keeps the store valid |
| Store.AddCheckpointValid | src/models.py:78-86 | appending a checkpoint keeps the store valid; its `message_id` is 0 or one of the project's conversations |
| Store.AddProjectValid | src/models.py:10-18 | a project with a new name, within the length limits, keeps names unique and the store valid |
| Store.TouchProjectValid | src/memory.py:48-52 | setting a project active and bumping `last_active` keeps the store valid |
| Store.FilesReplacedValid | src/models.py:62-70 | a valid replacement file table, committed no earlier than the clock, keeps the store valid |
| Store.Database.InsertConversation | src/memory.py:81-91 | a commit appends one conversation, or fails and changes nothing when a column or key rule is broken |
| Store.Database.InsertDecision | src/memory.py:158-168 | a commit appends one decision, or changes nothing |
| Store.Database.InsertCheckpoint | src/context.py:80-88 | a commit appends one checkpoint, or changes nothing |
| Store.Database.InsertProject | src/memory.py:55-62 | a commit appends one active project, or changes nothing |
| Store.Database.CommitFiles | src/file_tracker.py:219 | the batch of file rows replaces the file table and the clock moves to the commit time |
| Store.Database.ReactivateProject | src/memory.py:48-52 | only the project's status and `last_active` change |
| Context.ShouldAutoCheckpointCases | src/context.py:152-158 | the rule is false on an empty log, true once the estimate passes 28000, and below that true exactly on multiples of 25; (25,0), (24,0) and (1,28001) are checked |
| Context.EstimateMonotone | src/context.py:201-211 | the estimate of no rows is 0, the character total is additive, and adding a row never lowers the estimate |
| Context.EstimateContextTokens | src/context.py:201-211 | the loop returns the total of snapshot and response lengths (missing ones count 0), divided by 4 and rounded down |
| Context.NextAutoCheckpoint | src/context.py:233 | the announced distance lies in 1..25 and reaches a multiple of 25 |
| Context.NextAutoCheckpointIsNextTrigger | src/context.py:233 | below the size threshold, the rule fires after exactly the announced number of further messages and not before |
| Context.StatusOf | src/context.py:43-56 | the count covers every conversation of the project; at most 50 checkpoints, all of the project; the next-checkpoint value is the distance from the count to the next multiple of 25, within 1..25 |
| Context.StatusIsNewest | src/context.py:46-56 | the checkpoints are the project's 50 newest, newest first, and the estimate is over the project's 50 newest conversations, archived or not |
| Context.StatusCountsArchived | src/context.py:43-44 | the status count is the non-archived count plus the archived count |
| Context.AddCheckpointRecordsLatest | src/context.py:72-88 | a checkpoint adds exactly one row with the given description and flag; it points at the project's newest conversation, archived or not, or at 0 when there is none; no other table changes |
| Context.ResolveCheckpoint | src/context.py:108-124 | a result is a checkpoint of the project; "latest" fails only when the project has no checkpoint; any other identifier fails exactly when no checkpoint has that description |
| Context.ResolveCheckpointOrder | src/context.py:110-120 | "latest" picks the project's checkpoint with the greatest timestamp; a description picks the oldest matching checkpoint (the first in table order) |
| Context.ArchiveAfter | src/context.py:127-135 | rows keep their order and length; exactly the project's rows with an id above the checkpoint's `message_id` become archived, and all other fields and rows stay as they were |
| Context.ArchiveAfterIdempotent | src/context.py:127-142 | archiving twice equals archiving once, and the query behind the report matches the same number of rows |
| Context.ArchiveAfterValid | src/context.py:132-137 | archiving keeps the store valid |
| Context.ArchiveConversationsAfter | src/context.py:127-137 | the loop archives the rows the specification names and counts the rows the query returned |
| Context.ResetArchivesLaterConversations | src/context.py:100-144 | an unknown checkpoint means false and no change; otherwise only `archived` flags change: set on the later rows of the project, untouched elsewhere |
| Context.ResetIdempotent | src/context.py:127-142 | a second identical reset leaves the state as the first left it, and reports the same count |
| Context.ContextManager.constructor | src/context.py:13-16 | a new manager has no current project |
| Context.ContextManager.SetCurrentProject | src/context.py:30-32 | the given project becomes current |
| Context.ContextManager.ShowContextStatus | src/context.py:34-62 | no project gives no status, otherwise the status of the current project |
| Context.ContextManager.CreateCheckpoint | src/context.py:64-98 | false and no change without a project or when the row is refused; otherwise one manual checkpoint on the newest conversation |
| Context.ContextManager.CreateAutoCheckpoint | src/context.py:160-199 | the same, with the description "auto-checkpoint at N messages" (N the non-archived count) and `auto_created` set |
| Context.ContextManager.ResetToCheckpoint | src/context.py:100-150 | the reset's effect on the current project; without a project, false and no change |
| Memory.AutoLoad | src/memory.py:24-36 | none exactly when no project is active; otherwise an active project whose `last_active` is the greatest |
| Memory.InitProjectActivates | src/memory.py:38-73 | an existing name is reactivated in place and never duplicated; an unknown name adds exactly one active project, or nothing when the row is refused; the project is then the one a new facade loads |
| Memory.CheckpointDueIsTriggerRule | src/memory.py:127-131 | the facade's inline copy of the trigger agrees with the checkpoint manager's rule on every input |
| Memory.LogConversationValid | src/memory.py:75-150 | logging keeps the store valid |
| Memory.LogConversationAppendsOne | src/memory.py:75-103 | a refused row changes nothing and returns false; otherwise exactly one non-archived conversation of the project is appended and the other tables stay the same |
| Memory.LogConversationCheckpoint | src/memory.py:105-150 | at most one checkpoint follows: one exactly when the rule holds for the non-archived count and the estimate over the 50 newest non-archived rows; it points at the new conversation, is automatic, and is described "Auto-checkpoint at N messages" |
| Memory.TwentyFifthMessageCheckpoints | src/memory.py:127-148 | the 25th non-archived conversation of a project always brings an automatic checkpoint |
| Memory.LogDecisionNeverCheckpoints | src/memory.py:152-178 | a decision adds one decision row with its text and category, and never a checkpoint or a conversation |
| Memory.Search | src/memory.py:189-201 | at most ten of each; every conversation is a non-archived one of the project that matches the term in its command or response, and every decision one of the project that matches in its text or reasoning |
| Memory.SearchIsNewestFirst | src/memory.py:189-201 | both lists (conversations, decisions) are strictly newest first; a match is left out only when ten newer matches fill the list; with ten or fewer matches, all are returned |
| Memory.RecentActivity | src/memory.py:217-230 | up to five non-archived conversations, five decisions and three checkpoints, each of the project, as many as there are; that they are the newest is `RecentActivityIsNewest` |
| Memory.RecentActivityIsNewest | src/memory.py:217-230 | each list is the project's newest rows, newest first: a row is left out only of a full list and only when it is older than every listed one |
| Memory.ContextForAi | src/memory.py:348-361 | the project, `limit` conversations (or as many as there are), at most ten decisions of the project and at most ten files; which rows they are is stated by the three lemmas below |
| Memory.ContextForAiChronological | src/memory.py:348-374 | the conversations are the trailing window of the non-archived log, in increasing timestamp order |
| Memory.ContextForAiDecisionsNewest | src/memory.py:353-356 | the decisions are the project's ten newest, newest first |
| Memory.ContextForAiFiles | src/memory.py:358-361 | the files are the project's ten most recently analysed, by `last_analyzed` descending: a project file is left out only of a full list and only when analysed no later than every listed one; ten or fewer files are all listed |
| Memory.MostRecentlyAnalysedTop | src/memory.py:358-361 | `ORDER BY last_analyzed DESC LIMIT n` gives a top-n of the rows by `last_analyzed` |
| Memory.MemoryManager.constructor | src/memory.py:16-36 | the facade opens on the auto-loaded project |
| Memory.MemoryManager.InitProject | src/memory.py:38-73 | the effect of initialising at the given path or, without one, at the working directory; the project becomes current on success |
| Memory.MemoryManager.CheckAutoCheckpoint | src/memory.py:105-150 | no project means no change; otherwise the inline check's effect |
| Memory.MemoryManager.LogConversation | src/memory.py:75-103 | no project gives false and no change; otherwise the logging effect |
| Memory.MemoryManager.LogDecision | src/memory.py:152-178 | no project gives false and no change; otherwise one decision, in category "general" unless another is given |
| Memory.MemoryManager.SearchMemory | src/memory.py:180-206 | no project gives nothing; otherwise the two searches |
| Memory.MemoryManager.GetRecentActivity | src/memory.py:208-235 | no project gives nothing; otherwise the recent activity |
| Memory.MemoryManager.GetContextForAi | src/memory.py:340-395 | no project gives the empty context; otherwise the AI context, with 20 conversations unless another limit is given |
| FileTracking.Suffix | src/file_tracker.py:47 | pathlib's suffix: when not empty, the name's ending from a dot, with no further dot, at least one character after it and at least one before it; empty only when no dot after the first character is followed by a dot-free ending |
| FileTracking.DotNamesNeverTracked | src/file_tracker.py:21-26 | a name whose only dot is its first character (`.env`, `.gitignore`) is never tracked, although those suffixes are allow-listed |
| FileTracking.IgnoredAncestorExcludesAll | src/file_tracker.py:50-53 | the filter sees the absolute path, so an ignored name among the project root's own components excludes every file of the project |
| FileTracking.ScanMembers | src/file_tracker.py:64-78 | the scan holds exactly the walked regular files the filter accepts, by relative path |
| FileTracking.ChangedFilesClassify | src/file_tracker.py:125-167 | new = scanned and untracked (with a fresh hash or none); modified = tracked, scanned, readable, and hash differs; deleted = tracked and not scanned; nothing else is reported |
| FileTracking.ChangedFilesExample | src/file_tracker.py:125-167 | tracked a.py:h1, b.py:h2 against scanned a.py:h1, c.py:h3 reports c.py new and b.py deleted, nothing modified |
| FileTracking.FindFile | src/file_tracker.py:95-98 | the first row of the project with that path, or none exactly when no such row exists |
| FileTracking.UpdateTrackingCases | src/file_tracker.py:80-123 | unreadable file: false, no change; untracked: one row appended; tracked with a new hash: that row's hash and time are updated, and its insights only when given, with every other row kept; same hash: false, no change |
| FileTracking.UpdateTrackingValid | src/file_tracker.py:80-123 | tracking a file keeps the store valid, including unique (project, path) keys |
| FileTracking.InsightsRoundTrip | src/file_tracker.py:256-290 | updating insights succeeds exactly for a tracked path, after which reading them returns what was written; other rows and the untracked case are unchanged |
| FileTracking.UpdateInsightsValid | src/file_tracker.py:270-290 | updating insights keeps the store valid |
| FileSync.TrackAllCounts | src/file_tracker.py:180-206 | the first loop counts every readable scanned path once, as new, updated or unchanged, and adds one row per new count |
| FileSync.TrackAllShape | src/file_tracker.py:180-206 | after the first loop, every earlier row is that row refreshed or left alone, and every added row is a readable scanned path that was not tracked |
| FileSync.StaleRowsUntouched | src/file_tracker.py:209-217 | the rows the second loop deletes are the project's tracked rows whose path was not scanned, unchanged by the first loop |
| FileSync.SyncCounts | src/file_tracker.py:172-225 | new + updated + unchanged equals the number of readable scanned files; deleted equals the tracked paths not scanned; new equals the ids consumed; a rollback leaves the store unchanged |
| FileSync.SyncTracked | src/file_tracker.py:180-217 | after a sync a path is tracked exactly when it was scanned and is readable or already tracked; readable files carry their fresh hash; unreadable ones keep their old row |
| FileSync.SyncOtherProjects | src/file_tracker.py:187-217 | other projects' file rows are unchanged by a sync |
| FileSync.SyncValid | src/file_tracker.py:172-225 | a sync keeps the store valid, including unique (project, path) keys |
| FileSync.SyncIdempotent | src/file_tracker.py:192-198 | a second sync with no file change reports 0 new, 0 updated, 0 deleted and all readable files unchanged, and keeps the file table |
| Tracker.ScanProjectFiles | src/file_tracker.py:64-78 | the loop returns the scan |
| Tracker.DiffFiles | src/file_tracker.py:133-167 | the two loops return the changed-file report |
| Tracker.TrackScanned | src/file_tracker.py:180-206 | the first loop of the sync computes the tracking specification |
| Tracker.PruneUnscanned | src/file_tracker.py:209-217 | the second loop keeps the rows that are not stale and counts the stale ones |
| Tracker.SyncSession | src/file_tracker.py:174-225 | the session computes the sync's outcome, and on success a valid file table committed after the clock |
| Tracker.FileTracker.constructor | src/file_tracker.py:16-18 | the tracker works on the given store |
| Tracker.FileTracker.GetChangedFiles | src/file_tracker.py:125-170 | the report over the project's rows and the current scan |
| Tracker.FileTracker.UpdateFileTracking | src/file_tracker.py:80-123 | the store and result are those of the tracking specification, and the store stays valid |
| Tracker.FileTracker.SyncProjectFiles | src/file_tracker.py:172-227 | the store and result are those of the sync specification, and the store stays valid |
| Tracker.FileTracker.GetFileInsights | src/file_tracker.py:256-268 | the insights of the first matching row, or none |
| Tracker.FileTracker.UpdateFileInsights | src/file_tracker.py:270-292 | the store and result are those of the insights specification |
| Agents.HeaderText | src/agents.py:38-49 | every section header starts with `##` |
| Agents.Header | src/agents.py:38-49 | a line opens section s exactly when it starts with s's header; at most one header matches |
| Agents.SetField | src/agents.py:63-65 | the section's field becomes the stripped text and the other three are kept |
| Agents.RolesOpensRole | src/agents.py:38-40 | the match is a prefix match: `## Roles` opens the role section, `### Role` opens none |
| Agents.OpenLosesSection | src/agents.py:38-49 | opening a known header starts an empty section and stores nothing, so the open section's lines are lost |
| Agents.OtherHeadingCloses | src/agents.py:50-55 | any other `##` line stores the open section's lines, joined and stripped, and leaves no section open |
| Agents.IgnoredLines | src/agents.py:56-57 | blank lines, and lines read while no section is open, leave the parser's state unchanged |
| Agents.BodyAccumulates | src/agents.py:56-57 | inside a section, the lines up to the next `##` line are kept in order exactly when they are not blank |
| Agents.SectionClosed | src/agents.py:31-65 | a section closed by another heading and not opened again stores its non-blank lines, joined by newlines and stripped |
| Agents.SectionAtEnd | src/agents.py:59-61 | the section still open at the end of the file is stored the same way |
| Agents.UnmatchedFieldKept | src/agents.py:10-14 | a field whose header never occurs keeps its initial empty value |
| Agents.ParsedFieldsStripped | src/agents.py:63-65 | every stored field has no leading or trailing whitespace |
| Agents.LostSectionExample | src/agents.py:38-61 | `## Role / helper / ## Personality / kind` leaves the role empty and the personality "kind" |
| Agents.SystemPrompt | src/agents.py:67-79 | the prompt opens with the agent's name, role and personality and ends with the fixed closing sentence |
| Agents.Agent.constructor | src/agents.py:7-29 | a new agent holds its file's text and the fields parsed from it; an unreadable file leaves everything empty |
| Agents.Agent.SetSectionContent | src/agents.py:63-65 | the one field is set to the stripped text |
| Agents.Agent.ParseSections | src/agents.py:31-61 | the loop stores the fields the line-by-line specification computes |
| Agents.Agent.GetSystemPrompt | src/agents.py:67-79 | the prompt for the agent's current fields |
| Agents.FlagPriority | src/agents.py:115-127 | debug, then explain (professor), then manager, then code, then partner |
| Agents.LowerFlagsIgnored | src/agents.py:115-127 | flags below the highest one set do not change the choice |
| Agents.AgentManager.constructor | src/agents.py:84-90 | the manager holds the loaded agents |
| Agents.AgentManager.GetAgent | src/agents.py:104-109 | a known name gives that agent; no name or an unknown one gives "partner"; none only when that is missing too |
| Agents.AgentManager.SelectAgentFromFlags | src/agents.py:115-127 | the agent named by the flag priority, through the same fallback |
| Agents.AgentManager.ListAgents | src/agents.py:111-113 | every loaded name exactly once |
| Backups.Digits | src/backup_manager.py:35 | exactly `width` decimal digits |
| Backups.FormatStamp | src/backup_manager.py:35 | fifteen characters whose only `_` is the ninth |
| Backups.BackupName | src/backup_manager.py:35-38 | date, time, eight hex digits and the basename, joined by `_`; no slash, and no leading dot |
| Backups.CreateBackups | src/backup_manager.py:25-49 | a missing source gives FileNotFoundError and an unreadable one the error of opening it; otherwise the backup path's basename is the backup name, the corrected parse reads back the timestamp and the basename, and the as-written parse reads the date and `<hash8>_<basename>` |
| Backups.AsWrittenLosesName | src/backup_manager.py:64-67 | the listing's parse of any backup name gives the date alone as timestamp and `<hash8>_<basename>` as name, never the basename |
| Backups.ParseRoundTrip | src/backup_manager.py:35-38 | splitting at the first three `_` recovers the full timestamp and the basename |
| Backups.FilterName | src/backup_manager.py:70 | a filter applies exactly when a non-empty path is given |
| Backups.FoundMembers | src/backup_manager.py:57-78 | a listing row comes from a non-dot regular file whose name parses and matches the filter, and each such file gives a row |
| Backups.ListingSorted | src/backup_manager.py:80-82 | the result is the found rows, permuted into descending timestamp order |
| Backups.FilterFindsOwnBackup | src/backup_manager.py:64-71 | listing by a file's path misses that file's own backup under the as-written parse and finds it under the corrected one |
| Backups.Scan | src/backup_manager.py:57-78 | the loop collects the row of each qualifying entry, in directory order |
| Backups.ListBackups | src/backup_manager.py:51-82 | the loop and the sort return the listing under the `split('_', 2)` parse as written; no directory gives no rows |
| Backups.ListBackupsCorrected | src/backup_manager.py:51-82 | the same listing under the corrected parse |
| Backups.CleanupOldBackups | src/backup_manager.py:84-112 | seven days unless told otherwise; the count is the number of non-dot regular files last accessed before the cutoff, and what is left is the rest in order; no directory gives 0 |
| Backups.CleanupAccounts | src/backup_manager.py:99-112 | removed plus kept is the whole directory; dot-files and directories are always kept |
| Backups.LongerKeepRemovesFewer | src/backup_manager.py:96-110 | keeping backups for more days never removes more of them |
| Api.SelectModel | src/api.py:32-41 | the result is always one of the table's models |
| Api.DeepIsDefault | src/api.py:16-21 | `deep` and `default` name the same model; the quick and the largest model differ from it and from each other |
| Api.SelectModelCases | src/api.py:32-41 | the largest model exactly when ultra and deep are both set; the quick model exactly when quick is set without deep; the default otherwise |
| Api.IgnoredFlags | src/api.py:34-39 | ultra without deep is ignored, and so is quick with deep |

## Left out

- Rich rendering, console messages and colour bands are left out, as is the floating-point usage percentage of the status panel. The numbers behind the status view are modelled.
- Real time is a logical clock that ticks on every commit. Timestamps are therefore distinct and increase along each table, which the ordering proofs rely on.
- File contents and SHA-256 are not modelled. A digest function stands for them, and a file that cannot be read has no digest.
- The file system is not modelled. `rglob`, `is_file` and `stat` are a given walk with sizes; backups listings are a given sequence of entries; copying and removing files are not modelled.
- Sessions, autoflush and concurrency are left out; each operation runs alone. `log_conversation` commits twice: first the conversation (src/memory.py:90-91), then the auto-checkpoint (src/memory.py:147-148). A refused checkpoint leaves the conversation in place. Every other operation commits at most once.
- A database error other than a broken column, key or uniqueness rule is not modelled.
- `{'error': 1}` from a failed sync is the `SyncError` result.
- Set iteration order is not modelled. `get_changed_files` and `sync_project_files` go through the scanned paths in walk order, where Python iterates a set.
- Case-insensitive search folds ASCII letters only, and the search term's `%` and `_` wildcards are not interpreted.
- `strip` and `isspace` know only ASCII whitespace.
- `_load_agents` and `_load_agent_file` read directories and files. The parser takes the file's text instead, and the manager takes the loaded agents.
- Agents.AgentManager.ListAgents: does not keep the dictionary's insertion order, because the agents are modelled as a map.
- `chat_with_agent`, `test_connection` and `_setup_client` are remote calls to a language-model service and are left out.
- The command-line module, `database.py` and `utils.py` are not part of this model.
- Backups.FormatStamp: matches `strftime` for four-digit years only; other years are cut or padded to four digits.
- Backups.CleanupOldBackups: compares whole seconds, not fractional timestamps.
- Ids of a failed insert are not consumed, whereas a Postgres sequence would skip them.
- Queries without `ORDER BY` (`.first()` and `.all()` in src/context.py:116-130 and src/file_tracker.py) are read in table order, the order rows were inserted. SQL leaves that order unspecified, so "first" means the earliest inserted row: a reset by description takes the oldest matching checkpoint, and `get_changed_files` reports in table order.
- Ties among equal sort keys (`last_analyzed` of files, timestamps in a backup listing) are broken by the insertion sort; SQL and Python's stable sort may order them differently. `ContextForAiFiles` and `ListingSorted` say nothing about how ties are ordered; the exact sequence that `Listing` returns does fix an order.
- `BackupManager.__init__` and `_ensure_backup_dir` are left out: the project root is a parameter (its `os.getcwd()` default is the caller's), and creating the directory and its `.gitignore` is file-system work. A missing directory is a listing of `None`.
- Copying the file (`shutil.copy2`) can fail too; that error is not modelled.

## Findings

| source | as written | input that shows it | evidently intended | confidence | as-written member | corrected member |
|---|---|---|---|---|---|---|
| src/backup_manager.py:64-67 | `split('_', 2)` takes `parts[0]` as the timestamp and `parts[2]` as the original name, but the timestamp written at line 35 itself contains `_` | a backup of `notes.txt` created at 2024-01-02 03:04:05 with a digest starting `0123abcd` is named `20240102_030405_0123abcd_notes.txt`, which parses to timestamp `20240102` and name `0123abcd_notes.txt`; listing by `notes.txt` therefore finds none of its backups, and all rows of one day carry the same timestamp, the key the listing sorts by | the timestamp is the first two fields and the original name follows the hash | high (not executed) | Backups.AsWrittenLosesName | Backups.ParseRoundTrip |
