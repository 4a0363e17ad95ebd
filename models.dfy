/**
 * The media library's entities (apps/media_library/models.py): libraries,
 * locations, scans, media items, media files and watch progress, with the
 * instance methods that update them in place and the title normaliser.
 *
 * Timestamps are integer microseconds since the epoch (Python's datetime
 * resolution). Tables elsewhere in the model are sequences of the record
 * datatypes declared here; objects whose fields a method updates in place
 * are classes whose `Record()`/`Value()` gives the same record.
 */
module Models {
  import opened Wrappers
  import opened Text

  const MinuteUs: nat := 60_000_000
  const HourUs: nat := 3_600_000_000

  /** The file suffixes the scanner accepts. */
  const MediaExtensions: set<string> :=
    {".mkv", ".mp4", ".mov", ".avi", ".m4v", ".ts", ".flv", ".wmv", ".mpg", ".mpeg"}

  function Max(a: int, b: int): int { if a >= b then a else b }

  type Positive = x: int | x > 0 witness 1

  datatype LibraryType = MoviesLibrary | ShowsLibrary | MixedLibrary | OtherLibrary
  datatype ItemType = Collection | Show | Season | Episode | Movie | OtherType
  datatype ItemStatus = ItemPending | Matched | ItemFailed
  datatype ScanStatus = Pending | Running | Completed | Failed | Cancelled

  // ---------------------------------------------------------------------------
  // normalize_title

  predicate KeptInTitle(c: char) { IsAlnum(c) || IsSpace(c) }

  /** The characters `normalize_title` may leave in its output. */
  predicate NormalChar(c: char) { IsLower(c) || IsDigit(c) || IsSpace(c) }

  /** The generator `ch for ch in s if ch.isalnum() or ch.isspace()`. */
  function KeepTitleChars(s: string): string
    decreases |s|
  {
    if s == [] then [] else (if KeptInTitle(s[0]) then [s[0]] else []) + KeepTitleChars(s[1..])
  }

  lemma {:induction false} KeepTitleCharsProps(s: string)
    ensures forall i :: 0 <= i < |KeepTitleChars(s)| ==> KeptInTitle(KeepTitleChars(s)[i]) && KeepTitleChars(s)[i] in s
    ensures (forall i :: 0 <= i < |s| ==> KeptInTitle(s[i])) ==> KeepTitleChars(s) == s
    decreases |s|
  {
    if s != [] {
      KeepTitleCharsProps(s[1..]);
      assert forall c :: c in s[1..] ==> c in s;
    }
  }

  lemma {:induction false} KeepTitleCharsAppend(a: string, b: string)
    ensures KeepTitleChars(a + b) == KeepTitleChars(a) + KeepTitleChars(b)
    decreases |a|
  {
    if a != [] {
      assert (a + b)[1..] == a[1..] + b;
      KeepTitleCharsAppend(a[1..], b);
    } else {
      assert a + b == b;
    }
  }

  lemma StripKeepsChars(s: string)
    ensures forall i :: 0 <= i < |Strip(s)| ==> Strip(s)[i] in s
    ensures Strip(s) == "" || (!IsSpace(Strip(s)[0]) && !IsSpace(Strip(s)[|Strip(s)| - 1]))
  {
    var t := TrimLeft(s);
    var r := TrimRight(t);
    assert r == t[..|r|];
    assert forall i :: 0 <= i < |r| ==> r[i] == t[i];
  }

  lemma NormalizedChars(s: string)
    ensures forall i :: 0 <= i < |Strip(KeepTitleChars(Lowered(s)))| ==> NormalChar(Strip(KeepTitleChars(Lowered(s)))[i])
    ensures var r := Strip(KeepTitleChars(Lowered(s))); r == "" || (!IsSpace(r[0]) && !IsSpace(r[|r| - 1]))
  {
    var lowered := Lowered(s);
    LoweredProps(s);
    assert forall c :: c in lowered ==> !IsUpper(c);
    var kept := KeepTitleChars(lowered);
    KeepTitleCharsProps(lowered);
    assert forall c :: c in kept ==> NormalChar(c);
    StripKeepsChars(kept);
  }

  /**
   * `normalize_title`: empty for None and "", otherwise the lower-cased text
   * reduced to letters, digits and whitespace, with the ends stripped.
   */
  function NormalizeTitle(text: Option<string>): (r: string)
    ensures !Truthy(text) ==> r == ""
    ensures forall i :: 0 <= i < |r| ==> NormalChar(r[i])
    ensures r == "" || (!IsSpace(r[0]) && !IsSpace(r[|r| - 1]))
  {
    if !Truthy(text) then ""
    else
      NormalizedChars(text.value);
      Strip(KeepTitleChars(Lowered(text.value)))
  }

  lemma {:induction false} NormalizeTitleIdempotent(text: Option<string>)
    ensures NormalizeTitle(Some(NormalizeTitle(text))) == NormalizeTitle(text)
  {
    var r := NormalizeTitle(text);
    if r != "" {
      LoweredProps(r);
      assert Lowered(r) == r;
      KeepTitleCharsProps(r);
      assert KeepTitleChars(r) == r;
      assert TrimLeft(r) == r;
      assert TrimRight(r) == r;
      calc {
        NormalizeTitle(Some(r));
        Strip(KeepTitleChars(Lowered(r)));
        Strip(r);
        r;
      }
    }
  }

  /**
   * Punctuation is deleted, not turned into a space, so the words it
   * separated run together ("The.Matrix" becomes "thematrix").
   */
  lemma PunctuationJoinsWords(a: string, c: char, b: string)
    requires !KeptInTitle(c)
    ensures NormalizeTitle(Some(a + [c] + b)) == NormalizeTitle(Some(a + b))
  {
    var la, lb := Lowered(a), Lowered(b);
    calc {
      KeepTitleChars(Lowered(a + [c] + b));
      { LoweredAppend(a + [c], b); LoweredAppend(a, [c]); assert Lowered([c]) == [c]; }
      KeepTitleChars(la + [c] + lb);
      { KeepTitleCharsAppend(la + [c], lb); KeepTitleCharsAppend(la, [c]); }
      KeepTitleChars(la) + KeepTitleChars([c]) + KeepTitleChars(lb);
      { assert KeepTitleChars([c]) == []; }
      KeepTitleChars(la) + KeepTitleChars(lb);
      { KeepTitleCharsAppend(la, lb); LoweredAppend(a, b); }
      KeepTitleChars(Lowered(a + b));
    }
  }

  // ---------------------------------------------------------------------------
  // WatchProgress

  datatype Progress = Progress(positionMs: int, durationMs: int, completed: bool, lastWatchedAt: int)

  /** A completion threshold num/den (the source's default is 0.96). */
  datatype Threshold = Threshold(num: int, den: Positive)

  const DefaultCompletion: Threshold := Threshold(96, 100)

  /** `position / duration >= threshold`, cross-multiplied. */
  predicate ReachesThreshold(position: int, duration: int, t: Threshold) {
    duration > 0 && position * t.den >= t.num * duration
  }

  /** The state `update_progress` leaves behind. */
  function UpdatedProgress(p: Progress, position: int, duration: Option<int>, t: Threshold, now: int): (r: Progress)
    ensures duration.Some? ==> r.durationMs == Max(p.durationMs, duration.value)
    ensures duration.None? ==> r.durationMs == p.durationMs
    ensures r.durationMs >= p.durationMs
    ensures r.positionMs >= 0
    ensures p.completed ==> r.completed
    ensures ReachesThreshold(Max(position, 0), r.durationMs, t) ==> r.completed && r.positionMs == r.durationMs
    ensures !ReachesThreshold(Max(position, 0), r.durationMs, t) ==>
              r.positionMs == Max(position, 0) && r.completed == p.completed
    ensures r.lastWatchedAt == now
  {
    var d := if duration.Some? then Max(p.durationMs, duration.value) else p.durationMs;
    var pos := Max(position, 0);
    if ReachesThreshold(pos, d, t) then Progress(d, d, true, now)
    else Progress(pos, d, p.completed, now)
  }

  /**
   * The inputs of the unit tests for `update_progress`. At the default 0.96
   * threshold 9500 of 10000 ms (0.95) does not complete; it would at 0.95.
   */
  lemma UpdatedProgressTestCases(p: Progress, now: int)
    requires p.positionMs == 0 && p.durationMs == 0 && !p.completed
    ensures !UpdatedProgress(p, 9500, Some(10000), DefaultCompletion, now).completed
    ensures UpdatedProgress(p, 9500, Some(10000), DefaultCompletion, now).positionMs == 9500
    ensures UpdatedProgress(p, 9500, Some(10000), Threshold(95, 100), now).completed
    ensures UpdatedProgress(p, 9500, Some(10000), Threshold(95, 100), now).positionMs == 10000
    ensures !UpdatedProgress(p, 4000, Some(10000), DefaultCompletion, now).completed
    ensures UpdatedProgress(p, 4000, Some(10000), DefaultCompletion, now).positionMs == 4000
    ensures UpdatedProgress(p, 4000, Some(10000), DefaultCompletion, now).durationMs == 10000
  {
  }

  class WatchProgress {
    const userId: nat
    const mediaItemId: nat
    var positionMs: int
    var durationMs: int
    var completed: bool
    var lastWatchedAt: int

    function Value(): Progress
      reads this
    {
      Progress(positionMs, durationMs, completed, lastWatchedAt)
    }

    constructor (userId: nat, mediaItemId: nat, p: Progress)
      ensures this.userId == userId && this.mediaItemId == mediaItemId && Value() == p
    {
      this.userId := userId;
      this.mediaItemId := mediaItemId;
      positionMs := p.positionMs;
      durationMs := p.durationMs;
      completed := p.completed;
      lastWatchedAt := p.lastWatchedAt;
    }

    /** `update_progress(position_ms, duration_ms, completion_threshold)`; `now` is the save time. */
    method UpdateProgress(position: int, duration: Option<int>, t: Threshold, now: int)
      modifies this
      ensures Value() == UpdatedProgress(old(Value()), position, duration, t, now)
    {
      if duration.Some? {
        durationMs := Max(durationMs, duration.value);
      }
      positionMs := Max(position, 0);
      if durationMs > 0 {
        if positionMs * t.den >= t.num * durationMs {
          completed := true;
          positionMs := durationMs;
        }
      }
      lastWatchedAt := now;
    }
  }

  // ---------------------------------------------------------------------------
  // LibraryScan

  /** The `extra` JSON of a scan: what `enqueue_library_scan` stores. */
  datatype ScanExtra = ScanExtra(forceFull: bool, rescanItemId: Option<nat>)

  datatype ScanRecord = ScanRecord(
    id: string,
    libraryId: nat,
    status: ScanStatus,
    startedAt: Option<int>,
    finishedAt: Option<int>,
    totalFiles: nat,
    processedFiles: nat,
    newFiles: nat,
    updatedFiles: nat,
    removedFiles: nat,
    matchedItems: nat,
    unmatchedFiles: nat,
    taskId: Option<string>,
    summary: string,
    log: string,
    extra: ScanExtra,
    createdAt: int,
    updatedAt: int)

  /** The counters a status change may or may not touch. */
  predicate SameCounters(a: ScanRecord, b: ScanRecord) {
    a.totalFiles == b.totalFiles && a.newFiles == b.newFiles && a.updatedFiles == b.updatedFiles
    && a.removedFiles == b.removedFiles && a.matchedItems == b.matchedItems
    && a.unmatchedFiles == b.unmatchedFiles
  }

  /** Fields no status change touches. */
  predicate SameIdentity(a: ScanRecord, b: ScanRecord) {
    a.id == b.id && a.libraryId == b.libraryId && a.log == b.log && a.extra == b.extra
    && a.createdAt == b.createdAt
  }

  /** `mark_running(task_id)`. */
  function MarkedRunning(s: ScanRecord, taskId: Option<string>, now: int): (r: ScanRecord)
    ensures r.status == Running && r.startedAt == Some(now) && r.processedFiles == 0
    ensures Truthy(taskId) ==> r.taskId == taskId
    ensures !Truthy(taskId) ==> r.taskId == s.taskId
    ensures SameCounters(s, r) && SameIdentity(s, r)
    ensures r.finishedAt == s.finishedAt && r.summary == s.summary && r.updatedAt == now
  {
    s.(status := Running, startedAt := Some(now), processedFiles := 0,
       taskId := if Truthy(taskId) then taskId else s.taskId, updatedAt := now)
  }

  /** `mark_completed(summary)`. */
  function MarkedCompleted(s: ScanRecord, summary: string, now: int): (r: ScanRecord)
    ensures r.status == Completed && r.finishedAt == Some(now) && r.summary == summary
    ensures r.processedFiles == r.totalFiles == s.totalFiles
    ensures SameCounters(s, r) && SameIdentity(s, r)
    ensures r.startedAt == s.startedAt && r.taskId == s.taskId && r.updatedAt == now
  {
    s.(status := Completed, finishedAt := Some(now), summary := summary,
       processedFiles := s.totalFiles, updatedAt := now)
  }

  /** `mark_failed(summary)`: the counters, processed included, stay as they were. */
  function MarkedFailed(s: ScanRecord, summary: string, now: int): (r: ScanRecord)
    ensures r.status == Failed && r.finishedAt == Some(now) && r.summary == summary
    ensures SameCounters(s, r) && SameIdentity(s, r) && r.processedFiles == s.processedFiles
    ensures r.startedAt == s.startedAt && r.taskId == s.taskId && r.updatedAt == now
  {
    s.(status := Failed, finishedAt := Some(now), summary := summary, updatedAt := now)
  }

  /** `record_progress(processed=, matched=, unmatched=, summary=)`. */
  function RecordedProgress(s: ScanRecord, processed: Option<nat>, matched: Option<nat>,
                            unmatched: Option<nat>, summary: Option<string>, now: int): (r: ScanRecord)
    ensures processed.None? && matched.None? && unmatched.None? && summary.None? ==> r == s
    ensures r.processedFiles == processed.GetOr(s.processedFiles)
    ensures r.matchedItems == matched.GetOr(s.matchedItems)
    ensures r.unmatchedFiles == unmatched.GetOr(s.unmatchedFiles)
    ensures r.summary == summary.GetOr(s.summary)
    ensures (processed.Some? || matched.Some? || unmatched.Some? || summary.Some?) ==> r.updatedAt == now
    ensures r.status == s.status && SameIdentity(s, r) && r.taskId == s.taskId
    ensures r.totalFiles == s.totalFiles && r.newFiles == s.newFiles
    ensures r.updatedFiles == s.updatedFiles && r.removedFiles == s.removedFiles
    ensures r.startedAt == s.startedAt && r.finishedAt == s.finishedAt
  {
    if processed.None? && matched.None? && unmatched.None? && summary.None? then s
    else
      s.(processedFiles := processed.GetOr(s.processedFiles),
         matchedItems := matched.GetOr(s.matchedItems),
         unmatchedFiles := unmatched.GetOr(s.unmatchedFiles),
         summary := summary.GetOr(s.summary),
         updatedAt := now)
  }

  class LibraryScan {
    const id: string
    const libraryId: nat
    var status: ScanStatus
    var startedAt: Option<int>
    var finishedAt: Option<int>
    var totalFiles: nat
    var processedFiles: nat
    var newFiles: nat
    var updatedFiles: nat
    var removedFiles: nat
    var matchedItems: nat
    var unmatchedFiles: nat
    var taskId: Option<string>
    var summary: string
    var log: string
    var extra: ScanExtra
    const createdAt: int
    var updatedAt: int

    function Record(): ScanRecord
      reads this
    {
      ScanRecord(id, libraryId, status, startedAt, finishedAt, totalFiles, processedFiles,
                 newFiles, updatedFiles, removedFiles, matchedItems, unmatchedFiles, taskId,
                 summary, log, extra, createdAt, updatedAt)
    }

    constructor (s: ScanRecord)
      ensures Record() == s
    {
      id, libraryId, status, startedAt, finishedAt := s.id, s.libraryId, s.status, s.startedAt, s.finishedAt;
      totalFiles, processedFiles, newFiles, updatedFiles := s.totalFiles, s.processedFiles, s.newFiles, s.updatedFiles;
      removedFiles, matchedItems, unmatchedFiles := s.removedFiles, s.matchedItems, s.unmatchedFiles;
      taskId, summary, log, extra, createdAt, updatedAt := s.taskId, s.summary, s.log, s.extra, s.createdAt, s.updatedAt;
    }

    method MarkRunning(taskId: Option<string>, now: int)
      modifies this
      ensures Record() == MarkedRunning(old(Record()), taskId, now)
    {
      status := Running;
      startedAt := Some(now);
      processedFiles := 0;
      if Truthy(taskId) {
        this.taskId := taskId;
      }
      updatedAt := now;
    }

    method MarkCompleted(summary: string, now: int)
      modifies this
      ensures Record() == MarkedCompleted(old(Record()), summary, now)
    {
      status := Completed;
      finishedAt := Some(now);
      this.summary := summary;
      processedFiles := totalFiles;
      updatedAt := now;
    }

    method MarkFailed(summary: string, now: int)
      modifies this
      ensures Record() == MarkedFailed(old(Record()), summary, now)
    {
      status := Failed;
      finishedAt := Some(now);
      this.summary := summary;
      updatedAt := now;
    }

    /** Saves the totals `discover_files` counted, with `updated_at`. */
    method SaveTotals(total: nat, newCount: nat, updatedCount: nat, now: int)
      modifies this
      ensures Record() == old(Record()).(totalFiles := total, newFiles := newCount, updatedFiles := updatedCount, updatedAt := now)
    {
      totalFiles := total;
      newFiles := newCount;
      updatedFiles := updatedCount;
      updatedAt := now;
    }

    /** `record_progress`: writes only the fields given, and nothing at all when none is. */
    method RecordProgress(processed: Option<nat>, matched: Option<nat>, unmatched: Option<nat>,
                          summary: Option<string>, now: int)
      modifies this
      ensures Record() == RecordedProgress(old(Record()), processed, matched, unmatched, summary, now)
    {
      var anyUpdate := false;
      if processed.Some? {
        processedFiles := processed.value;
        anyUpdate := true;
      }
      if matched.Some? {
        matchedItems := matched.value;
        anyUpdate := true;
      }
      if unmatched.Some? {
        unmatchedFiles := unmatched.value;
        anyUpdate := true;
      }
      if summary.Some? {
        this.summary := summary.value;
        anyUpdate := true;
      }
      if !anyUpdate {
        return;
      }
      updatedAt := now;
    }
  }

  // ---------------------------------------------------------------------------
  // MediaItem

  datatype Item = Item(
    id: nat,
    libraryId: nat,
    parentId: Option<nat>,
    itemType: ItemType,
    status: ItemStatus,
    title: string,
    sortTitle: string,
    normalizedTitle: string,
    releaseYear: Option<int>,
    seasonNumber: Option<int>,
    episodeNumber: Option<int>,
    runtimeMs: Option<int>,
    synopsis: string,
    tagline: string,
    genres: Option<seq<string>>,
    cast: Option<seq<string>>,
    crew: Option<seq<string>>,
    posterUrl: string,
    backdropUrl: string,
    tmdbId: Option<string>,
    imdbId: Option<string>,
    metadataLastSyncedAt: Option<int>,
    metadataSource: string)

  /** `ensure_sort_title`, which every `save()` runs first. */
  function WithSortTitles(it: Item): (r: Item)
    ensures it.sortTitle != "" ==> r.sortTitle == it.sortTitle
    ensures it.sortTitle == "" ==> r.sortTitle == it.title
    ensures it.normalizedTitle != "" ==> r.normalizedTitle == it.normalizedTitle
    ensures it.normalizedTitle == "" ==> r.normalizedTitle == NormalizeTitle(Some(it.title))
    ensures r == it.(sortTitle := r.sortTitle, normalizedTitle := r.normalizedTitle)
  {
    it.(sortTitle := if it.sortTitle == "" then it.title else it.sortTitle,
        normalizedTitle := if it.normalizedTitle == "" then NormalizeTitle(Some(it.title)) else it.normalizedTitle)
  }

  lemma WithSortTitlesIdempotent(it: Item)
    ensures WithSortTitles(WithSortTitles(it)) == WithSortTitles(it)
  {
  }

  class MediaItem {
    const id: nat
    const libraryId: nat
    var parentId: Option<nat>
    var itemType: ItemType
    var status: ItemStatus
    var title: string
    var sortTitle: string
    var normalizedTitle: string
    var releaseYear: Option<int>
    var seasonNumber: Option<int>
    var episodeNumber: Option<int>
    var runtimeMs: Option<int>
    var synopsis: string
    var tagline: string
    var genres: Option<seq<string>>
    var cast: Option<seq<string>>
    var crew: Option<seq<string>>
    var posterUrl: string
    var backdropUrl: string
    var tmdbId: Option<string>
    var imdbId: Option<string>
    var metadataLastSyncedAt: Option<int>
    var metadataSource: string

    function Row(): Item
      reads this
    {
      Item(id, libraryId, parentId, itemType, status, title, sortTitle, normalizedTitle,
           releaseYear, seasonNumber, episodeNumber, runtimeMs, synopsis, tagline, genres,
           cast, crew, posterUrl, backdropUrl, tmdbId, imdbId, metadataLastSyncedAt,
           metadataSource)
    }

    constructor (it: Item)
      ensures Row() == it
    {
      id, libraryId, parentId, itemType, status := it.id, it.libraryId, it.parentId, it.itemType, it.status;
      title, sortTitle, normalizedTitle := it.title, it.sortTitle, it.normalizedTitle;
      releaseYear, seasonNumber, episodeNumber, runtimeMs := it.releaseYear, it.seasonNumber, it.episodeNumber, it.runtimeMs;
      synopsis, tagline, genres, cast, crew := it.synopsis, it.tagline, it.genres, it.cast, it.crew;
      posterUrl, backdropUrl, tmdbId, imdbId := it.posterUrl, it.backdropUrl, it.tmdbId, it.imdbId;
      metadataLastSyncedAt, metadataSource := it.metadataLastSyncedAt, it.metadataSource;
    }

    method EnsureSortTitle()
      modifies this
      ensures Row() == WithSortTitles(old(Row()))
    {
      if sortTitle == "" {
        sortTitle := title;
      }
      if normalizedTitle == "" {
        normalizedTitle := NormalizeTitle(Some(title));
      }
    }
  }

  // ---------------------------------------------------------------------------
  // Library

  datatype LibraryRecord = LibraryRecord(
    id: nat,
    name: string,
    slug: string,
    libraryType: LibraryType,
    autoScanEnabled: bool,
    scanIntervalMinutes: nat,
    lastScanAt: Option<int>,
    lastSuccessfulScanAt: Option<int>)

  /** The slug `Library.save` tries on its `counter`-th attempt. */
  function SlugCandidate(base: string, counter: nat): string {
    if counter <= 1 then base else base + "-" + NatToString(counter)
  }

  lemma SlugCandidateDistinct(base: string, j: nat, k: nat)
    requires 1 <= j < k
    ensures SlugCandidate(base, j) != SlugCandidate(base, k)
  {
    var ck := SlugCandidate(base, k);
    assert ck[|base| + 1..] == NatToString(k);
    if j >= 2 {
      var cj := SlugCandidate(base, j);
      assert cj[|base| + 1..] == NatToString(j);
      NatToStringDistinct(j, k);
    }
  }

  /** The loop never proposes `base-1`: the second attempt is `base-2`. */
  lemma SlugCandidateNeverDashOne(base: string, k: nat)
    requires k >= 1
    ensures SlugCandidate(base, k) != base + "-1"
  {
    if k >= 2 {
      var ck := SlugCandidate(base, k);
      assert ck[|base| + 1..] == NatToString(k);
      assert (base + "-1")[|base| + 1..] == "1" == NatToString(1);
      NatToStringDistinct(1, k);
    }
  }

  /** The slug loop of `Library.save`: the first of base, base-2, base-3, ... not taken. */
  method ChooseSlug(base: string, taken: set<string>) returns (slug: string)
    ensures slug !in taken
    ensures exists k :: k >= 1 && slug == SlugCandidate(base, k)
                        && forall j :: 1 <= j < k ==> SlugCandidate(base, j) in taken
  {
    var candidate := base;
    var counter := 1;
    ghost var tried: set<string> := {};
    while candidate in taken
      invariant counter >= 1
      invariant candidate == SlugCandidate(base, counter)
      invariant forall j :: 1 <= j < counter ==> SlugCandidate(base, j) in taken
      invariant tried <= taken
      invariant forall x :: x in tried ==> exists j :: 1 <= j < counter && x == SlugCandidate(base, j)
      decreases taken - tried
    {
      assert candidate !in tried by {
        forall x | x in tried ensures x != candidate {
          var j :| 1 <= j < counter && x == SlugCandidate(base, j);
          SlugCandidateDistinct(base, j, counter);
        }
      }
      tried := tried + {candidate};
      counter := counter + 1;
      candidate := base + "-" + NatToString(counter);
    }
    slug := candidate;
  }

  class Library {
    const id: nat
    var name: string
    var slug: string
    var libraryType: LibraryType
    var autoScanEnabled: bool
    var scanIntervalMinutes: nat
    var lastScanAt: Option<int>
    var lastSuccessfulScanAt: Option<int>

    function Record(): LibraryRecord
      reads this
    {
      LibraryRecord(id, name, slug, libraryType, autoScanEnabled, scanIntervalMinutes,
                    lastScanAt, lastSuccessfulScanAt)
    }

    constructor (r: LibraryRecord)
      ensures Record() == r
    {
      id, name, slug, libraryType := r.id, r.name, r.slug, r.libraryType;
      autoScanEnabled, scanIntervalMinutes := r.autoScanEnabled, r.scanIntervalMinutes;
      lastScanAt, lastSuccessfulScanAt := r.lastScanAt, r.lastSuccessfulScanAt;
    }

    /**
     * `Library.save`: an empty slug is replaced by the first free candidate
     * built from `baseSlug` (the slugified name); `otherSlugs` are the slugs
     * of every other library.
     */
    method Save(baseSlug: string, otherSlugs: set<string>)
      modifies this
      ensures old(slug) != "" ==> slug == old(slug)
      ensures old(slug) == "" ==> slug !in otherSlugs
      ensures old(slug) == "" ==>
                (exists k :: k >= 1 && slug == SlugCandidate(baseSlug, k) && forall j :: 1 <= j < k ==> SlugCandidate(baseSlug, j) in otherSlugs)
      ensures Record() == old(Record()).(slug := slug)
    {
      if slug == "" {
        slug := ChooseSlug(baseSlug, otherSlugs);
      }
    }
  }

  // ---------------------------------------------------------------------------
  // LibraryLocation and MediaFile

  datatype Location = Location(id: nat, libraryId: nat, path: string, includeSubdirectories: bool, isPrimary: bool)

  datatype MediaFileRecord = MediaFileRecord(
    id: nat,
    libraryId: nat,
    mediaItemId: Option<nat>,
    locationId: Option<nat>,
    absolutePath: string,
    relativePath: string,
    fileName: string,
    sizeBytes: int,
    durationMs: Option<int>,
    checksum: string,
    lastModifiedAt: Option<int>,
    lastSeenAt: Option<int>,
    missingSince: Option<int>)
}
