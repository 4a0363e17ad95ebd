# Media library core of Dispatcharr, modelled in Dafny

This project models the server side of Dispatcharr's media library, the Django app
`apps/media_library`. It covers:

- the records the app keeps: libraries, locations, scans, media items, media files and watch progress;
- the state changes those records go through (`models.py`);
- the scanner that walks library directories and keeps file rows in step with the disk (`utils.py`);
- classification of file names and resolution of the media item a file belongs to (`utils.py`);
- the scan queue and the scan task (`tasks.py`);
- the TMDB metadata shaping and merge (`metadata.py`);
- the nested-location sync, the watch-progress read and write logic and the watch summary (`serializers.py`);
- the HTTP actions that change state (`api_views.py`).

The model follows the Python code.

Conventions:

- **Tables.** A database table is a `seq` of datatype rows. A filter with `.first()` is
  `Catalog.FirstWhere`: the first row in table order that matches. Django's default orderings are
  abstracted to table order, except where a query orders explicitly (`order_by("id")`,
  `order_by("-duration_ms")`).
- **Classes.** Objects whose fields the source assigns in place are classes: `WatchProgress`,
  `LibraryScan`, `MediaItem`, `Library`, the `LibraryScanner`, the TMDB client, the scan table and
  the database. Each method is tied by its `ensures` to a pure function of the old state, and the
  lemmas are proved about that function.
- **Time.** Timestamps are integer microseconds, the resolution of a Python `datetime`. Every
  operation reads one `now`, which is passed in as a parameter.
- **Ratios.** Float ratios are compared by cross-multiplying integers: 0.96 is 96/100 and 0.04
  is 4/100.
- **External effects.** The guessit parser, the checksum, the date parser, directory listings,
  TMDB responses and settings values are all parameters or inputs.

Modules:

- `wrappers.dfy`: `Option`.
- `text.dfy`: characters, `strip`, `lower`, decimal rendering, join and sort.
- `models.dfy`: entities and their state transitions.
- `catalog.dfy`: table rows and lookups.
- `classification.dfy`: file-name suffix and stem, `classify_media_file`.
- `json_safe.dfy`: `_json_safe`.
- `resolution.dfy`: `resolve_media_item`.
- `scanner.dfy`: `LibraryScanner`.
- `serializers.dfy`: the serializers.
- `metadata.dfy`: TMDB metadata.
- `tasks.dfy`: the scan queue and the scan task.
- `api_views.dfy`: the view actions.

## Model

| member | source | states |
|---|---|---|
| Models.NormalizeTitle | apps/media_library/models.py:519-523 | empty or missing text gives ""; the result holds only lower-case letters, digits and whitespace, with no whitespace at either end |
| Models.NormalizeTitleIdempotent | apps/media_library/models.py:519-523 | normalizing a normalized title changes nothing |
| Models.PunctuationJoinsWords | apps/media_library/models.py:522 | a character that is neither alphanumeric nor whitespace is dropped, so the text around it joins |
| Models.UpdatedProgress | apps/media_library/models.py:507-516 | duration only grows, taking the max with a given duration; position is clamped at 0; reaching the threshold completes the progress and moves the position to the duration; otherwise completion is kept as it was; the timestamp is refreshed |
| Models.UpdatedProgressTestCases | apps/media_library/models.py:507-516 | at the default 0.96, 9500 of 10000 ms does not complete (at 0.95 it does); 4000 of 10000 keeps position 4000 and duration 10000 |
| Models.WatchProgress.UpdateProgress | apps/media_library/models.py:507-516 | the object's new progress is UpdatedProgress of its old progress |
| Models.MarkedRunning | apps/media_library/models.py:170-184 | status running, started now, processed count reset; a truthy task id replaces the stored one; counters and identity kept |
| Models.MarkedCompleted | apps/media_library/models.py:186-199 | status completed, finished now, summary set; processed equals total; everything else kept |
| Models.MarkedFailed | apps/media_library/models.py:201-205 | status failed, finished now, summary set; counters kept |
| Models.RecordedProgress | apps/media_library/models.py:207-237 | each counter given is written and each one omitted is kept; the timestamp changes only when something was given; with nothing given the scan is unchanged |
| Models.LibraryScan.MarkRunning | apps/media_library/models.py:170-184 | the scan's new record is MarkedRunning of the old one |
| Models.LibraryScan.MarkCompleted | apps/media_library/models.py:186-199 | the scan's new record is MarkedCompleted of the old one |
| Models.LibraryScan.MarkFailed | apps/media_library/models.py:201-205 | the scan's new record is MarkedFailed of the old one |
| Models.LibraryScan.SaveTotals | apps/media_library/utils.py:135-146 | the scan's total, new and updated counts and its update time are set; every other field is kept |
| Models.LibraryScan.RecordProgress | apps/media_library/models.py:207-237 | the scan's new record is RecordedProgress of the old one |
| Models.WithSortTitles | apps/media_library/models.py:345-349 | an empty sort title becomes the title; an empty normalized title becomes the normalized title; nothing else changes |
| Models.WithSortTitlesIdempotent | apps/media_library/models.py:345-353 | saving twice fills the titles once |
| Models.MediaItem.EnsureSortTitle | apps/media_library/models.py:345-349 | the item's new row is WithSortTitles of the old one |
| Models.SlugCandidateDistinct | apps/media_library/models.py:83-90 | different counters give different slugs |
| Models.SlugCandidateNeverDashOne | apps/media_library/models.py:83-90 | the counter starts at 1 with the bare slug and then goes to 2, so "-1" is never tried |
| Models.ChooseSlug | apps/media_library/models.py:83-90 | the chosen slug is free, and is the first free candidate in counter order |
| Models.Library.Save | apps/media_library/models.py:82-91 | an existing slug is kept; an empty slug gets the first free candidate; no other field changes |
| Classification.Suffix | apps/media_library/utils.py:254 | the suffix is empty or a single dot-led part with no other dot; it is non-empty exactly when the name has a suffix |
| Classification.Stem | apps/media_library/utils.py:254 | a name with a suffix has a shorter, non-empty stem; a name without one is its own stem |
| Classification.StemSuffixSplit | apps/media_library/utils.py:254 | stem followed by suffix is the file name |
| Classification.DetectedType | apps/media_library/utils.py:267-277 | "movie", "episode", "show"/"series"/"tv" and "season" map to their item types (each an if-and-only-if); anything else maps to other |
| Classification.ClassifyMediaFile | apps/media_library/utils.py:253-295 | a guessit failure gives type other, the stem as title and the error; otherwise the type, the title (falling back to the stem), year, season, episode and episode title come from the guess; a series title is present exactly for episodes, falling back from series to title to stem |
| Classification.ClassifiedTitleNonEmpty | apps/media_library/utils.py:279 | a non-empty stem gives a non-empty title and series title |
| JsonSafe.JsonSafeOf | apps/media_library/utils.py:44-53 | the result is JSON-safe; primitives are kept; dict keys are kept; lists, tuples and sets become lists of equal length; anything else becomes its string form |
| JsonSafe.JsonSafeFixedIff | apps/media_library/utils.py:44-53 | a value is left unchanged exactly when it is already JSON-safe |
| JsonSafe.JsonSafeIdempotent | apps/media_library/utils.py:44-53 | converting twice is converting once |
| Resolution.NewItem | apps/media_library/utils.py:325-335 | a created item has the given library, parent, type, title, year, season and episode, is pending, and has the normalized title |
| Resolution.ResolvedTitle | apps/media_library/utils.py:306 | the title used for lookup is never empty |
| Resolution.Pad2 | apps/media_library/utils.py:398-401 | numbers from 0 to 99 render as exactly two digits |
| Resolution.EpisodeLabelExample | apps/media_library/utils.py:398-401 | season 1, episode 12 is labelled S01E12 |
| Resolution.EpisodeTitle | apps/media_library/utils.py:396-403 | a new episode's title is the episode title if given, else the SxxEyy label when season and episode are known, else the resolved title; it is never empty |
| Resolution.FindOrCreateShape | apps/media_library/utils.py:337-354 | a show or other item is found by (library, type, normalized title) or appended; the table only grows, by at most one row, and exactly when nothing matched; ids stay valid |
| Resolution.FindOrCreate | apps/media_library/utils.py:337-354 | the lookup by (library, type, normalized title) that appends a new row when nothing matches; its properties are Resolution.FindOrCreateShape and Resolution.FindOrCreateIdempotent |
| Resolution.Resolve | apps/media_library/utils.py:298-436 | a target item is returned as it is; otherwise the item found or created has the library and the resolved type; at most two rows are added; existing rows keep their identity |
| Resolution.MovieShape | apps/media_library/utils.py:309-335 | the movie branch finds or creates a movie with the normalized title; only release years of existing rows may change; a row is added exactly when no title matched |
| Resolution.ResolveMovie | apps/media_library/utils.py:309-335 | the movie branch, preferring a same-year match and carrying the year over; its properties are Resolution.MovieShape, MoviePrefersSameYear, MovieYearSynced and MovieIdempotent |
| Resolution.MoviePrefersSameYear | apps/media_library/utils.py:309-320 | with a year, the first same-title movie of that year is chosen, unchanged |
| Resolution.MovieYearSynced | apps/media_library/utils.py:321-324 | with a year, the resolved movie ends up with that year |
| Resolution.EpisodeCases | apps/media_library/utils.py:356-418 | an existing episode under the show is reused, taking the episode title only if its own title is empty; otherwise an episode is created under the show |
| Resolution.ResolveEpisode | apps/media_library/utils.py:356-418 | the episode branch, finding or creating the show and then the episode under it; its properties are Resolution.EpisodeCases, EpisodeShape, EpisodeParent and EpisodeIdempotent |
| Resolution.EpisodeShape | apps/media_library/utils.py:356-418 | the episode branch adds at most two rows, only changes titles of existing rows, and yields an episode of the library |
| Resolution.EpisodeParent | apps/media_library/utils.py:356-395 | a resolved episode's parent is a show of the same library whose normalized title is the series title |
| Resolution.FindOrCreateIdempotent | apps/media_library/utils.py:337-354 | resolving the same title again finds the same row and changes nothing |
| Resolution.MovieIdempotent | apps/media_library/utils.py:309-335 | resolving the same movie again changes nothing |
| Resolution.EpisodeIdempotent | apps/media_library/utils.py:356-418 | resolving the same episode again changes nothing |
| Resolution.ResolveIdempotent | apps/media_library/utils.py:298-436 | rescanning a file with the same classification creates nothing new |
| Scanner.UpsertFileProps | apps/media_library/utils.py:191-246 | a new path appends a row needing a probe; a known path keeps its id, item and checksum, and size and mtime are refreshed exactly when forced, unknown or newer; a probe is needed when updated, forced or unchecksummed; the row is marked seen now and not missing; ids and path uniqueness are preserved |
| Scanner.UpsertFile | apps/media_library/utils.py:191-246 | `_ensure_file_record` on the file table: a new path appends a row, a known one is refreshed; its properties are Scanner.UpsertFileProps |
| Scanner.AcceptedInEntriesIff | apps/media_library/utils.py:105-110 | a path is counted exactly when some listed file with that path has an accepted suffix |
| Scanner.VisitFileSeen | apps/media_library/utils.py:105-133 | visiting a file adds its path to the seen set exactly when its suffix is accepted |
| Scanner.VisitFile | apps/media_library/utils.py:105-133 | one yielded path: skipped unless accepted; otherwise upserted, marked seen and handed on unless the target filter skips it; its properties are Scanner.VisitFileSeen and VisitFileKeeps |
| Scanner.VisitFileKeeps | apps/media_library/utils.py:105-133 | visiting a file keeps ids valid and paths unique |
| Scanner.VisitEntriesSeen | apps/media_library/utils.py:96-133 | a directory walk adds exactly the accepted paths |
| Scanner.VisitEntriesKeeps | apps/media_library/utils.py:96-133 | a directory walk keeps ids valid and paths unique |
| Scanner.WalkSeen | apps/media_library/utils.py:89-147 | walking all locations sees exactly the accepted paths of the directory listings |
| Scanner.Walk | apps/media_library/utils.py:89-147 | the walk over every location in turn, logging a missing path or a non-directory; its properties are Scanner.WalkSeen and WalkKeeps |
| Scanner.WalkKeeps | apps/media_library/utils.py:89-147 | walking all locations keeps ids valid and paths unique |
| Scanner.MarkMissing | apps/media_library/utils.py:149-161 | exactly the library's rows with a non-empty path that was not seen, missing already or not, get missing-since now; all other rows are unchanged |
| Scanner.Unseen | apps/media_library/utils.py:150-155 | the rows the bulk update touches: the library's, with a path not seen and not empty, missing already or not |
| Scanner.MissingCount | apps/media_library/utils.py:149-161 | the count is at most the table size and is zero exactly when no row of the library with a non-empty path, missing already or not, went unseen |
| Scanner.MarkMissingIdempotent | apps/media_library/utils.py:149-161 | marking twice marks once |
| Scanner.Finalized | apps/media_library/utils.py:163-189 | the scan is completed with processed equal to total, the matched and unmatched counts, the summary (or the old one), the joined log and finished now |
| Scanner.FinalizedIsCompletion | apps/media_library/utils.py:163-189 | with a summary, finalize is mark_completed plus the counts and the log |
| Scanner.LibraryScanner.constructor | apps/media_library/utils.py:64-87 | a rescan forces a full scan; a rescan target outside the library is dropped with a log line, so the scanner starts from ScanStart with the ScanTarget of the tables |
| Scanner.LibraryScanner.EnsureFileRecord | apps/media_library/utils.py:191-246 | the file table becomes UpsertFile of the old one, and the new/updated stats count it |
| Scanner.LibraryScanner.VisitPath | apps/media_library/utils.py:105-133 | one file of a walk: the new state is VisitFile of the old one |
| Scanner.LibraryScanner.VisitLocationFiles | apps/media_library/utils.py:96-133 | one location: a missing path or a non-directory is logged; a directory is walked |
| Scanner.LibraryScanner.WalkLocations | apps/media_library/utils.py:96-133 | all locations: the new state is Walk of the old one |
| Scanner.LibraryScanner.DiscoverFiles | apps/media_library/utils.py:89-147 | no locations logs and changes nothing; otherwise the walk's files, seen set and stats are stored and the scan's totals are saved |
| Scanner.LibraryScanner.MarkMissingFiles | apps/media_library/utils.py:149-161 | the file table becomes MarkMissing; a non-zero count is added to removed, logged and saved |
| Scanner.LibraryScanner.Finalize | apps/media_library/utils.py:163-189 | stats gain the counts; the scan becomes Finalized; the library's last and last-successful scan times are now |
| Scanner.LibraryScanner.SaveFinishedScan | apps/media_library/utils.py:163-189 | the scan's new record is Finalized of the old one, with the scanner's counters and joined log |
| Serializers.ProgressOf | apps/media_library/serializers.py:224-228 | the row returned belongs to the user and item; None exactly when there is no such row |
| Serializers.ReportedDuration | apps/media_library/serializers.py:240-246 | a non-zero stored duration is reported; zero falls back to the item's runtime |
| Serializers.WatchProgressPayload | apps/media_library/serializers.py:230-246 | present exactly for an authenticated user with a row; it carries that row's fields and the reported duration |
| Serializers.ReportedDurationFallback | apps/media_library/serializers.py:240-246 | a non-zero duration is reported exactly when the stored one or the runtime is non-zero |
| Serializers.LatestWhereProps | apps/media_library/serializers.py:253-315 | the child picked is the most recently watched match, the first among equals; None exactly when nothing matches |
| Serializers.RollupCounts | apps/media_library/serializers.py:253-315 | the total counts episodes; the completed count is at most the total |
| Serializers.RollupOf | apps/media_library/serializers.py:253-315 | the show rollup as one definition over the children; its properties are the Serializers.Rollup lemmas, and Serializers.ShowWatchSummary is proved equal to it |
| Serializers.RollupWatchedIff | apps/media_library/serializers.py:253-315 | a show is watched exactly when it has episodes and all are completed; a watched show has no next episode |
| Serializers.RollupInProgressResumes | apps/media_library/serializers.py:253-315 | an in-progress show always names a resume episode, falling back to the first unstarted one |
| Serializers.RollupUnwatchedIff | apps/media_library/serializers.py:253-315 | a show is unwatched exactly when no child is finished or resumable |
| Serializers.ShowWatchSummary | apps/media_library/serializers.py:253-315 | the one-pass loop computes the rollup |
| Serializers.ItemSummaryOf | apps/media_library/serializers.py:317-333 | no progress means unwatched; watched exactly when completed; otherwise in progress, with the stored position and duration |
| Serializers.WatchedAfterThreshold | apps/media_library/serializers.py:317-333 | an update that reaches the threshold makes the item summary watched |
| Serializers.WatchSummary | apps/media_library/serializers.py:248-333 | anonymous users get none; shows get the rollup; other items get their item summary |
| Serializers.SerializerUpdated | apps/media_library/serializers.py:469-476 | position and completed take the given value or keep theirs; duration never shrinks |
| Serializers.SerializerUpdateIdempotent | apps/media_library/serializers.py:469-476 | applying the same update twice is applying it once |
| Serializers.SerializerUpdateEmpty | apps/media_library/serializers.py:469-476 | an empty update only refreshes the timestamp |
| Serializers.UpdateWatchProgress | apps/media_library/serializers.py:469-476 | the instance's new progress is SerializerUpdated of its old one |
| Serializers.CreatedProgressProps | apps/media_library/serializers.py:456-467 | create is update-or-create: afterwards the user's row for the item holds the given values or the defaults; a missing row is appended with the next id, an existing row keeps its id; no other row changes |
| Serializers.CreatedProgress | apps/media_library/serializers.py:456-467 | `update_or_create` of the user's row for the item with the posted defaults; its properties are Serializers.CreatedProgressProps, CreatedProgressKeys and CreatedProgressIdempotent |
| Serializers.CreatedProgressKeys | apps/media_library/serializers.py:456-467 | update-or-create keeps one row per (user, item) and keeps row ids distinct and below the next id |
| Serializers.CreatedProgressIdempotent | apps/media_library/serializers.py:456-467 | creating twice is creating once |
| Serializers.PrunedMembers | apps/media_library/serializers.py:91-93 | pruning keeps exactly the other libraries' rows and this library's rows that the payload named |
| Serializers.LowestLocation | apps/media_library/serializers.py:95-97 | the lowest-id location of the library, or None exactly when it has none |
| Serializers.SyncLocations | apps/media_library/serializers.py:68-97 | the loop computes the sync outcome |
| Serializers.SyncedLocations | apps/media_library/serializers.py:68-97 | the outcome of `_sync_locations`: update or create each entry, prune the unnamed rows, then ensure a primary; its properties are Serializers.SyncKeepsOtherLibraries, SyncKeepsOnlyPayload and SyncSetsPrimary |
| Serializers.ApplyEntriesProps | apps/media_library/serializers.py:68-90 | applying the entries leaves other libraries' rows alone; every surviving row of the library existed before or is new |
| Serializers.SyncKeepsOtherLibraries | apps/media_library/serializers.py:68-97 | a successful sync leaves other libraries' locations unchanged |
| Serializers.SyncKeepsOnlyPayload | apps/media_library/serializers.py:68-97 | after a sync the library's rows are the existing ones the payload named, plus new ones |
| Serializers.SyncSetsPrimary | apps/media_library/serializers.py:94-97 | when the payload marks no location primary, the lowest-id location becomes primary |
| Serializers.LocationEntriesOf | apps/media_library/serializers.py:8-20 | the nested locations read back are exactly the library's rows |
| Serializers.ValidatedLocationEntries | apps/media_library/serializers.py:19 | validation drops the read-only id from every entry |
| Serializers.ResendFailsAsWritten | apps/media_library/serializers.py:19 | resending a library's own locations, as validated, fails on the (library, path) uniqueness constraint |
| Serializers.ResendKeepsLocations | apps/media_library/serializers.py:68-97 | resending the locations with their ids keeps the table, only ensuring a primary |
| Metadata.TmdbApiKey | apps/media_library/metadata.py:20-29 | a truthy setting wins, stripped; otherwise the environment value |
| Metadata.TmdbClient.Configure | apps/media_library/metadata.py:32-40 | succeeds exactly for a truthy key, which is then installed; otherwise the key is unchanged |
| Metadata.BuildImageUrl | apps/media_library/metadata.py:43-46 | None exactly for a falsy path; otherwise the base URL followed by the path |
| Metadata.BuildImageUrlInverse | apps/media_library/metadata.py:43-46 | the path can be read back from the URL |
| Metadata.Names | apps/media_library/metadata.py:97 | the names kept are exactly the truthy ones |
| Metadata.CrewOfEntries | apps/media_library/metadata.py:106-111 | every crew credit is "name (job)" of a member with both; with all present, none is dropped |
| Metadata.ShapeCrew | apps/media_library/metadata.py:106-111 | the loop keeps the credits of the first fifteen members, at most fifteen |
| Metadata.ShapedRuntime | apps/media_library/metadata.py:98-103 | a movie's runtime, a show's first episode run time if any, otherwise none |
| Metadata.ShapedYear | apps/media_library/metadata.py:113-119 | the parsed release or first-air year, falling back to the item's year |
| Metadata.ShapedMetadata | apps/media_library/metadata.py:121-134 | each field of the shaped dictionary: the id string, the title fallbacks, genres, at most ten cast, at most fifteen crew, the runtime, the year and the image URLs |
| Metadata.FetchedMetadata | apps/media_library/metadata.py:49-137 | present exactly when configured, a movie or show, with a first result having a truthy id and details fetched; it is then the shaped metadata |
| Metadata.AppliedFieldsRule | apps/media_library/metadata.py:142-203 | a field changes only to a truthy, different incoming value; a falsy one leaves it as it is; the converse, that a truthy value is written, is Metadata.AppliedFieldsWritten |
| Metadata.MergedInto | apps/media_library/metadata.py:142-203 | the twelve compared fields after the merge: each takes a truthy incoming value that differs and keeps its value otherwise |
| Metadata.AppliedMetadata | apps/media_library/metadata.py:140-226 | the merged item, saved with the sync time, the source and the sort titles only when a field changed, and the artwork writes |
| Metadata.AppliedFields | apps/media_library/metadata.py:140-207 | the saved item carries exactly the merged fields |
| Metadata.AppliedFieldsWritten | apps/media_library/metadata.py:142-203 | every truthy incoming value is held afterwards, and every missing or falsy one leaves its field as it was |
| Metadata.AppliedRuntime | apps/media_library/metadata.py:173-178 | truthy minutes set the runtime to minutes times 60000 ms |
| Metadata.AppliedStampsIffChanged | apps/media_library/metadata.py:205-208 | the item is saved, stamped now with source "tmdb", exactly when a field changed; otherwise it is untouched |
| Metadata.MergedIntoIdempotent | apps/media_library/metadata.py:142-203 | merging the same metadata twice is merging once |
| Metadata.AppliedIdempotent | apps/media_library/metadata.py:140-226 | a second apply of the same metadata changes nothing and saves nothing |
| Metadata.MergedGroups | apps/media_library/metadata.py:142-203 | merging the groups of fields in turn is the whole merge |
| Metadata.MergedChangedIff | apps/media_library/metadata.py:142-205 | the item differs exactly when a merged field differs |
| Metadata.ApplyIds | apps/media_library/metadata.py:142-147 | the ids are merged; reports whether the row changed |
| Metadata.ApplyText | apps/media_library/metadata.py:149-162 | title, synopsis and tagline are merged; reports whether the row changed |
| Metadata.ApplyNumbers | apps/media_library/metadata.py:164-178 | year and runtime are merged; reports whether the row changed |
| Metadata.ApplyLists | apps/media_library/metadata.py:180-193 | genres, cast and crew are merged; reports whether the row changed |
| Metadata.ApplyArt | apps/media_library/metadata.py:195-203 | poster and backdrop are merged; reports whether the row changed |
| Metadata.ApplyMetadata | apps/media_library/metadata.py:140-226 | the item's new row and the artwork writes are those of AppliedMetadata |
| Metadata.ArtworkWrites | apps/media_library/metadata.py:210-224 | at most two artwork rows, the poster before the backdrop, each written only for a truthy URL and with that URL |
| Metadata.SyncMetadata | apps/media_library/metadata.py:229-233 | applies exactly when metadata was fetched; otherwise nothing changes |
| Tasks.EarliestWaitingProps | apps/media_library/tasks.py:38-47 | the scan picked is a waiting one with the earliest creation time, the first among equals; None exactly when none is waiting |
| Tasks.StartedNextWhileBusy | apps/media_library/tasks.py:30-36 | a library with a scan in flight dispatches nothing and changes nothing |
| Tasks.StartedNext | apps/media_library/tasks.py:26-58 | `_start_next_scan` on the scan table; its properties are Tasks.StartedNextWhileBusy, StartedNextWhenIdle and StartedNextKeepsOneInFlight |
| Tasks.StartedNextWhenIdle | apps/media_library/tasks.py:26-58 | an idle library dispatches its earliest waiting scan, recording the task id, with that scan's options; nothing is dispatched exactly when none is waiting |
| Tasks.StartedNextKeepsOneInFlight | apps/media_library/tasks.py:26-58 | every library keeps at most one scan in flight |
| Tasks.EnqueuedOnIdleLibrary | apps/media_library/tasks.py:61-80 | on an idle library with no queue the new scan is dispatched at once |
| Tasks.Enqueued | apps/media_library/tasks.py:61-80 | `enqueue_library_scan`: a new pending scan, then `_start_next_scan`; its properties are Tasks.EnqueuedOnIdleLibrary, EnqueuedOnBusyLibrary and EnqueuedKeepsOneInFlight |
| Tasks.EnqueuedOnBusyLibrary | apps/media_library/tasks.py:61-80 | on a busy library the new scan waits |
| Tasks.EnqueuedKeepsOneInFlight | apps/media_library/tasks.py:61-80 | enqueueing keeps at most one scan in flight per library |
| Tasks.ScanTable.StartNextScan | apps/media_library/tasks.py:26-58 | the table and the request are StartedNext of the old table |
| Tasks.ScanTable.EnqueueLibraryScan | apps/media_library/tasks.py:61-80 | the table and the request are Enqueued of the old table |
| Tasks.ScanTable.ScheduleAutoScans | apps/media_library/tasks.py:426-434 | the table and the requests are Scheduled of the old table |
| Tasks.ScanTable.PruneStaleScans | apps/media_library/tasks.py:415-422 | the table becomes Pruned at now minus the age; the count is the number deleted |
| Tasks.DueLibraries | apps/media_library/tasks.py:426-434 | a library id is listed exactly when some library with that id has auto-scan enabled and was never scanned or its interval has passed; no more entries than libraries |
| Tasks.ScheduledAppendsDue | apps/media_library/tasks.py:426-434 | scheduling appends one pending scan per due library, in order, and keeps existing scans |
| Tasks.Scheduled | apps/media_library/tasks.py:426-434 | one enqueue per due library in order; its properties are Tasks.ScheduledAppendsDue and ScheduledKeepsOneInFlight |
| Tasks.ScheduledKeepsOneInFlight | apps/media_library/tasks.py:426-434 | scheduling keeps at most one scan in flight per library |
| Tasks.PrunedMembers | apps/media_library/tasks.py:415-422 | exactly the completed or failed scans created before the threshold are removed |
| Tasks.Pruned | apps/media_library/tasks.py:415-422 | the table without the stale finished or failed scans; its properties are Tasks.PrunedMembers, PrunedCount and PrunedKeepsUnfinished |
| Tasks.PrunedCount | apps/media_library/tasks.py:415-422 | kept scans plus deleted scans make up the table |
| Tasks.PrunedKeepsUnfinished | apps/media_library/tasks.py:418 | pending, running and cancelled scans survive pruning |
| Tasks.LibraryTypeOverride | apps/media_library/tasks.py:311-316 | a movie library makes everything a movie; a show library turns a movie into a show and keeps every other type; mixed and other libraries keep the detected type |
| Tasks.LibraryTypeOverrideIdempotent | apps/media_library/tasks.py:311-316 | overriding twice is overriding once |
| Tasks.IdentifiedAccounting | apps/media_library/tasks.py:297-362 | an unknown file changes nothing; a known file counts as exactly one of matched or unmatched and is linked to an item; it is unmatched exactly when classified as other |
| Tasks.IdentifiedFile | apps/media_library/tasks.py:297-362 | `_identify_media_file`: an unknown file gives zero counts; a known one is classified, overridden by library type, resolved, linked and marked; its properties are Tasks.IdentifiedAccounting and IdentifiedLinksAndMarks |
| Tasks.IdentifiedFound | apps/media_library/tasks.py:311-362 | the branch of `_identify_media_file` for a file that exists in the library |
| Tasks.MarkedItems | apps/media_library/tasks.py:328-348 | the status writes: failed for an `other` classification, matched otherwise, and matched for an episode's parent; its properties are Tasks.MarkedItemsProps |
| Tasks.IdentifiedLinksAndMarks | apps/media_library/tasks.py:321-354 | only the file's row changes: it is linked to the item and keeps or gains a checksum; the item is failed if unmatched, else matched |
| Tasks.MarkedItemsProps | apps/media_library/tasks.py:328-348 | only statuses change; the file's item is failed for other and matched otherwise; a parent may become matched |
| Tasks.Candidates | apps/media_library/tasks.py:190-204 | candidate ids are real and distinct |
| Tasks.AnnouncedOnce | apps/media_library/tasks.py:190-204 | every item is announced at most once, and only items seen in the scan |
| Tasks.LoopStep | apps/media_library/tasks.py:178-222 | one file: processed grows by one, results by at most one, a progress event is emitted and a probe queued if required |
| Tasks.ProcessedProps | apps/media_library/tasks.py:178-222 | the loop processes every file, emits one numbered event per file, queues exactly the probes required and announces without repeats |
| Tasks.Processed | apps/media_library/tasks.py:178-222 | the identification loop as a fold of Tasks.LoopStep over the discoveries; its properties are Tasks.ProcessedProps, ProcessedPrefix and ProcessedCount |
| Tasks.ScanSummary | apps/media_library/tasks.py:232-237 | the completed scan's summary line with the six counts |
| Tasks.ProcessedPrefix | apps/media_library/tasks.py:178-222 | the same facts hold after any prefix of the files |
| Tasks.ProcessedCount | apps/media_library/tasks.py:178-222 | processed equals the number of files |
| Tasks.IdentifyMediaFile | apps/media_library/tasks.py:297-362 | the database and result are IdentifiedFile of the old database |
| Tasks.IdentifyFound | apps/media_library/tasks.py:311-362 | the database and result are IdentifiedFound of the old database |
| Tasks.MarkItems | apps/media_library/tasks.py:328-348 | the items become MarkedItems; files and ids untouched |
| Tasks.AnnounceCandidates | apps/media_library/tasks.py:190-204 | the announcement state becomes Announced |
| Tasks.ProcessOne | apps/media_library/tasks.py:178-222 | one iteration: the loop state is LoopStep and the scan records the counts |
| Tasks.ProcessDiscoveries | apps/media_library/tasks.py:178-222 | the loop state is Processed; with files the scan records the final counts, otherwise it is untouched |
| Tasks.MetadataQueue | apps/media_library/tasks.py:224-231 | an item is queued exactly when it was touched by the scan and was never synced or has no poster |
| Tasks.RunScan | apps/media_library/tasks.py:120-257 | the discoveries are exactly what the walk from the scanner's start state finds; the result is the identification loop (Processed) over them, starting from the tables after the walk and mark_missing_files; the scan is completed with processed equal to total, the counts and the summary line; the queue is exactly the MetadataQueue of the items that loop touched; the library is stamped |
| Tasks.DiscoverMedia | apps/media_library/tasks.py:283-286 | the discoveries, file rows and seen set are those of the Walk from the scanner's state; the walk adds exactly the accepted paths of the listed directories to the seen set, leaves items and the matched and unmatched counters alone, and keeps the scan's status, start time and task id |
| Tasks.StartScan | apps/media_library/tasks.py:134-161 | the scan is running since now; the scanner starts with zero counts and the ScanTarget of the tables; the discoveries are the ScanWalk's, and the tables become StartedTables: the walk's file rows with the unseen ones marked missing |
| Tasks.CompleteScan | apps/media_library/tasks.py:176-239 | the rest of the run: the result is Processed over the discoveries from the tables as they were, the scan is completed with the counts and the summary line, and the metadata queue is exactly the MetadataQueue of the items that loop touched |
| Tasks.FailScan | apps/media_library/tasks.py:258-280 | on failure the counts so far are recorded and the scan is failed with the message |
| ApiViews.Where | apps/media_library/api_views.py:49-50 | a filter keeps exactly the matching rows |
| ApiViews.WherePartition | apps/media_library/api_views.py:49-50 | rows kept plus rows dropped make up the table |
| ApiViews.PerformCreate | apps/media_library/api_views.py:37-40 | a scan is enqueued exactly when auto-scan is on |
| ApiViews.PerformUpdate | apps/media_library/api_views.py:42-45 | a scan is enqueued exactly when auto-scan is on and a scan was asked for |
| ApiViews.ScanAction | apps/media_library/api_views.py:54-60 | a scan is always enqueued, full if asked |
| ApiViews.DestroyedLibrary | apps/media_library/api_views.py:47-51 | exactly the library's items and files are deleted |
| ApiViews.Without | apps/media_library/api_views.py:79 | removing one scan keeps every other scan in order |
| ApiViews.RemovedFromQueue | apps/media_library/api_views.py:72-83 | an unknown scan is not found; only pending scans can be removed; on error nothing changes; a removal deletes one scan |
| ApiViews.RemovalOnlyPending | apps/media_library/api_views.py:75-76 | the removal is refused exactly when the scan is not pending |
| ApiViews.RemovalDeletesScan | apps/media_library/api_views.py:79-81 | after a removal no scan has that id |
| ApiViews.StartedNextKeepsIds | apps/media_library/api_views.py:81 | dispatching the next scan keeps scan ids |
| ApiViews.WithoutKeepsOneInFlight | apps/media_library/api_views.py:79 | deleting a scan keeps at most one in flight |
| ApiViews.RemovalKeepsOneInFlight | apps/media_library/api_views.py:72-83 | removing a queued scan keeps at most one in flight per library |
| ApiViews.RemovalHandsOnQueue | apps/media_library/api_views.py:78-81 | removing a dispatched pending scan lets the next waiting scan of the library start |
| ApiViews.DestroyScan | apps/media_library/api_views.py:72-83 | the table and outcome are RemovedFromQueue of the old table |
| ApiViews.UnknownFields | apps/media_library/api_views.py:212 | the unknown keys, sorted and without repeats |
| ApiViews.PartialUpdateCheck | apps/media_library/api_views.py:196-218 | allowed exactly when every key is updatable; otherwise the error lists the unknown keys sorted |
| ApiViews.PartialUpdateCheckOrderFree | apps/media_library/api_views.py:212-216 | the answer depends only on the set of keys |
| ApiViews.LowestFileId | apps/media_library/api_views.py:236 | the item's file with the lowest id, none exactly when it has none |
| ApiViews.StreamFileChoice | apps/media_library/api_views.py:227-244 | a requested file must be the item's, else not found; otherwise the lowest-id file; no files is an error |
| ApiViews.FileDurations | apps/media_library/api_views.py:265 | exactly the durations of the item's files |
| ApiViews.LongestKnown | apps/media_library/api_views.py:265 | the longest known duration, none exactly when none is known |
| ApiViews.PrimaryDurationAsWritten | apps/media_library/api_views.py:265 | on PostgreSQL a file with no duration sorts first, so any such file makes the picked duration unknown; with all known it is the longest |
| ApiViews.WatchedDurationFrom | apps/media_library/api_views.py:262-268 | the runtime if truthy, else the file's duration if truthy, else 1000 ms; never zero |
| ApiViews.UnprobedFileHidesDuration | apps/media_library/api_views.py:265 | with no runtime and files of 5400000 ms and unknown, the code as written uses 1000 ms; the longest-known reading gives 5400000 |
| ApiViews.WatchedDurationAsWritten | apps/media_library/api_views.py:262-268 | the duration `mark_watched` records as written, with the NULLS FIRST pick |
| ApiViews.WatchedDuration | apps/media_library/api_views.py:262-268 | the corrected duration is never zero |
| ApiViews.WatchedDurationUsesLongestFile | apps/media_library/api_views.py:262-268 | with no runtime, the longest known duration is used when there is one |
| ApiViews.WatchedDurationPositive | apps/media_library/api_views.py:262-268 | for nonnegative inputs the duration is positive |
| ApiViews.ItemWatchedDuration | apps/media_library/api_views.py:262-268 | the duration used for an item is the corrected one of "## Findings" row 2 (the runtime, else the longest known file duration, else 1000 ms) and is never zero |
| ApiViews.WatchedDurationAgreesWhenProbed | apps/media_library/api_views.py:262-268 | the corrected duration equals the one the code records whenever the runtime is set or every file has a duration |
| ApiViews.CreatedProgressOther | apps/media_library/serializers.py:456-467 | update-or-create changes no other user's or item's lookup |
| ApiViews.ProgressUpdatedOther | apps/media_library/models.py:507-516 | update_progress on one row changes no other lookup |
| ApiViews.ProgressUpdated | apps/media_library/models.py:507-516 | `update_progress` on the user's row for the item, when there is one; its properties are ApiViews.ProgressUpdatedRow and ProgressUpdatedOther |
| ApiViews.ProgressUpdatedRow | apps/media_library/models.py:507-516 | the row's new progress is UpdatedProgress of the old |
| ApiViews.SetProgressRow | apps/media_library/api_views.py:370-379 | after set the row holds the clamped position, or the duration when the threshold is reached, with completed set accordingly and the time now |
| ApiViews.SetProgress | apps/media_library/api_views.py:369-378 | `set_progress`: the serializer's create, then `update_progress` with the posted position (0 when absent) and duration; its property is ApiViews.SetProgressRow |
| ApiViews.ClearedProgress | apps/media_library/api_views.py:341-345 | afterwards the user has no row for the item; every other row is kept |
| ApiViews.MarkedWatchedProps | apps/media_library/api_views.py:261-281 | the row is completed with the item's corrected watched duration, at the full position when positive; every other lookup is unchanged |
| ApiViews.MarkedWatched | apps/media_library/api_views.py:261-280 | `mark_watched`: `update_or_create` completed at the item's corrected watched duration, then `update_progress`; its property is ApiViews.MarkedWatchedProps |
| ApiViews.EpisodeCount | apps/media_library/api_views.py:291-310 | the number of episodes counted is at most the number of items |
| ApiViews.SeriesWatched | apps/media_library/api_views.py:283-322 | a non-show is refused exactly; a show has each episode marked with its corrected watched duration, then its own row written, and its episodes counted |
| ApiViews.EpisodesMarkedProps | apps/media_library/api_views.py:292-310 | every episode of the show gets a completed row at its corrected watched duration |
| ApiViews.EpisodeMarked | apps/media_library/api_views.py:293-307 | one episode of the loop: `update_or_create` completed at its corrected watched duration |
| ApiViews.EpisodesMarked | apps/media_library/api_views.py:290-308 | the loop over the show's episodes in table order; its properties are ApiViews.EpisodesMarkedProps and EpisodesMarkedOthers |
| ApiViews.EpisodesMarkedOthers | apps/media_library/api_views.py:292-310 | the loop leaves every lookup for another user, or for an item that is none of the episodes, unchanged |
| ApiViews.SeriesWatchedShowRow | apps/media_library/api_views.py:312-322 | the count is the number of episodes, and the show gets a completed row at position 0 |
| ApiViews.SeriesWatchedEpisodes | apps/media_library/api_views.py:292-310 | each episode's row is completed at its full corrected watched duration |
| ApiViews.MarkSeriesWatched | apps/media_library/api_views.py:283-322 | the loop computes SeriesWatched, with the corrected watched duration for each episode |
| ApiViews.EpisodeIds | apps/media_library/api_views.py:331 | every episode of the show has its id in the set |
| ApiViews.SeriesUnwatched | apps/media_library/api_views.py:324-339 | a non-show is refused exactly; the count is the number of the user's episode rows removed |
| ApiViews.SeriesUnwatchedProps | apps/media_library/api_views.py:324-339 | afterwards the user has no rows for the show or its episodes; all other rows are kept; the count is what was removed |
| ApiViews.ResumeOf | apps/media_library/api_views.py:381-396 | remaining time is the duration minus the position, at least 0 |
| ApiViews.ResumeAllowedIffBeforeThreshold | apps/media_library/api_views.py:381-396 | for nonnegative values resume is allowed exactly when there is a duration and the completion threshold is not reached |
| ApiViews.NoResumeAfterCompletion | apps/media_library/api_views.py:381-396 | after an update that completes, resume is not allowed |

## Left out

- Floating point: the scan percentage and the resume percentage are not modelled. Thresholds are exact rationals (96/100 and 4/100), not their binary float values.
- Models.NormalizeTitle: `lower`, `isalnum` and `isspace` are modelled on ASCII only; other characters are dropped, where Python would keep Unicode letters.
- Database ordering: a query without an explicit order is read in table order.
- Concurrency: transactions, `atomic` blocks and races between workers are not modelled. The scan table, the `LibraryScan` object of a run and the `Library` object are separate representations, so the run's final `_start_next_scan` is modelled only through `Tasks.ScanTable.StartNextScan`.
- I/O and external services: the TMDB API and its response cache, Celery dispatch (`delay`, `apply_async`) and the websocket events. Revoking a Celery task is also left out.
- Probing: `probe_media_file`, `_probe_with_mediainfo`, `apply_probe_metadata` and `_safe_frame_rate` are not modelled. The scan only records which files need a probe.
- The checksum: it is an input function, and chunked file reading is not modelled.
- Classification: of `ClassificationResult.data`, only the series title and the guessit error are kept.
- The file system: directory listings are inputs. `expanduser`, symlinks and `stat` failures are not modelled.
- Slugs: `slugify` is not modelled; the base slug is a parameter.
- The `cancel` action: it calls `cancel_library_scan`, which is not defined in `tasks.py`. The helpers `revoke_scan_task` and `start_next_library_scan` are also missing there. `destroy` is modelled with `_start_next_scan` in their place.
- Integer parsing: `int()` failures on the runtime and the year in `apply_metadata` are not modelled. Years and runtimes are integers already.
- Serializers: `LibrarySerializer.create` and `update` are not modelled beyond the location sync.
- Unused fields: `created_by` and `user_id` on scans are not modelled.
- Candidate order: the item ids announced come from a Python set, whose iteration order is not modelled. The model uses table order.
- Thin task wrappers: `discover_media_task`, `identify_media_task`, `probe_media_task`, `sync_metadata_task`, `_sync_metadata`, `cleanup_missing_task` and `refresh_metadata_for_item` only wrap modelled operations.
- Tasks.FailScan: the failure path is modelled by its effect on the scan. Which exception was raised is not.
- Not-found responses: `get_object` 404s and `DoesNotExist` are modelled only where an action branches on them.
- ApiViews.StreamFileChoice: it takes the `file` query parameter as an optional number. A non-numeric value, which makes `filter(pk=...)` raise in the view, is not modelled.
- View plumbing: the query sets, the filters, the stream token and the response payloads are not modelled, and neither is the declarative view configuration.
- The `refresh_metadata` action is not modelled: it only queues a task.
- ApiViews.ItemWatchedDuration: it gives the corrected duration of "## Findings" row 2, the longest known file duration. As written, an item with no runtime and a file with no duration records 1000 ms (ApiViews.WatchedDurationAsWritten). The two agree whenever the runtime is set or every file has a duration (ApiViews.WatchedDurationAgreesWhenProbed).
- ApiViews.MarkedWatched: it records the corrected duration of ApiViews.ItemWatchedDuration, not the as-written pick of api_views.py:265.
- ApiViews.MarkedWatchedProps: the duration it states is the corrected one of ApiViews.ItemWatchedDuration.
- ApiViews.EpisodeMarked: it records the corrected duration of ApiViews.ItemWatchedDuration, not the as-written pick of api_views.py:295.
- ApiViews.EpisodesMarkedProps: the duration it states for each episode is the corrected one of ApiViews.ItemWatchedDuration.
- ApiViews.SeriesWatched: it builds the episode rows from the corrected duration of ApiViews.ItemWatchedDuration, not the as-written pick of api_views.py:295.
- ApiViews.SeriesWatchedEpisodes: the duration it states for each episode is the corrected one of ApiViews.ItemWatchedDuration.
- ApiViews.MarkSeriesWatched: its loop uses the corrected duration of ApiViews.ItemWatchedDuration, as ApiViews.SeriesWatched does.
- ApiViews.ResumeAllowedIffBeforeThreshold: it assumes nonnegative position and duration. The model field validators (`MinValueValidator(0)`) keep them so, and the lemma takes that as a requirement.

## Findings

| source | as written | input that shows it | evidently intended | confidence | as-written member | corrected member |
|---|---|---|---|---|---|---|
| apps/media_library/serializers.py:19 | the nested location `id` is read-only, so validated entries never carry an id and `_sync_locations` takes the create path for every entry | a library with one location, updated with its own `locations` list as the API returned it | entries naming an existing location update it in place | high, not executed | Serializers.ResendFailsAsWritten | Serializers.ResendKeepsLocations |
| apps/media_library/api_views.py:265 | `order_by("-duration_ms").first()` puts files with no duration first on PostgreSQL (descending order sorts NULL first) | an item with no runtime and files of 5400000 ms and of unknown duration is marked watched with 1000 ms | the longest known file duration | medium, not executed | ApiViews.UnprobedFileHidesDuration | ApiViews.WatchedDuration |
