/**
 * `LibraryScanner` (apps/media_library/utils.py): the discovery pass of a
 * library scan. The filesystem is an input: for every location, what the
 * walk finds there (nothing, a non-directory, or the files the iterator
 * yields with their sizes and modification times).
 */
module Scanner {
  import opened Wrappers
  import opened Text
  import opened Models
  import opened Catalog
  import opened Classification

  /** One path the directory iterator yields, with what `stat()` reports for it. */
  datatype DiskFile = DiskFile(path: string, relativePath: string, name: string, isFile: bool, sizeBytes: int, mtime: int)

  /** What the walk finds at a location's path. */
  datatype Listing = Missing | NotADirectory | Directory(entries: seq<DiskFile>)

  /** `DiscoveredFile`: a file the scan goes on to identify (by its primary key). */
  datatype Discovered = Discovered(fileId: nat, requiresProbe: bool)

  /** The scanner's `stats` counters. */
  datatype ScanStats = ScanStats(newFiles: nat, updated: nat, total: nat, removed: nat, matched: nat, unmatched: nat)

  const NoStats := ScanStats(0, 0, 0, 0, 0, 0)

  /** The suffix filter: `file_path.suffix.lower() in MEDIA_EXTENSIONS`. */
  predicate IsMediaName(name: string) {
    Lowered(Suffix(name)) in MediaExtensions
  }

  /** The identity of a file row: its library and absolute path. */
  function PathQuery(lib: nat, path: string): MediaFileRecord -> bool {
    (x: MediaFileRecord) => x.libraryId == lib && x.absolutePath == path
  }

  /** No two rows share a library and a path (the table's uniqueness constraint). */
  predicate UniquePaths(files: seq<MediaFileRecord>) {
    forall i, j :: 0 <= i < j < |files| ==>
      !(files[i].libraryId == files[j].libraryId && files[i].absolutePath == files[j].absolutePath)
  }

  // ---------------------------------------------------------------------------
  // _ensure_file_record

  datatype Upsert = Upsert(files: seq<MediaFileRecord>, nextFileId: nat, index: nat, created: bool, updated: bool, requiresProbe: bool)

  /** Whether an existing row's size and mtime are refreshed. */
  predicate ShouldUpdate(row: MediaFileRecord, f: DiskFile, forceFull: bool) {
    forceFull || row.lastModifiedAt.None? || f.mtime > row.lastModifiedAt.value
  }

  /** The row `_ensure_file_record` leaves for `f`, and whether the file needs a probe. */
  function UpsertFile(files: seq<MediaFileRecord>, nextId: nat, lib: nat, loc: Location, f: DiskFile,
                      forceFull: bool, now: int): Upsert
  {
    var m := FirstWhere(files, PathQuery(lib, f.path));
    if m.None? then
      var row := MediaFileRecord(nextId, lib, None, Some(loc.id), f.path, f.relativePath, f.name, f.sizeBytes,
                                 None, "", Some(f.mtime), Some(now), None);
      Upsert(files + [row], nextId + 1, |files|, true, false, true)
    else
      var k := m.value;
      var prior := files[k];
      var should := ShouldUpdate(prior, f, forceFull);
      var refreshed := if should then prior.(sizeBytes := f.sizeBytes, lastModifiedAt := Some(f.mtime)) else prior;
      var row := refreshed.(lastSeenAt := Some(now), locationId := Some(loc.id), relativePath := f.relativePath,
                            fileName := f.name, missingSince := None);
      Upsert(files[k := row], nextId, k, false, should, should || forceFull || prior.checksum == "")
  }

  /**
   * `get_or_create` by (library, absolute path): a new row when none exists,
   * otherwise the found row refreshed; only that row changes, and the keys
   * and (library, path) pairs stay distinct.
   */
  lemma UpsertFileProps(files: seq<MediaFileRecord>, nextId: nat, lib: nat, loc: Location, f: DiskFile,
                        forceFull: bool, now: int)
    ensures var r := UpsertFile(files, nextId, lib, loc, f, forceFull, now);
            r.index < |r.files| && (r.created <==> FirstWhere(files, PathQuery(lib, f.path)).None?)
    ensures var r := UpsertFile(files, nextId, lib, loc, f, forceFull, now);
            var row := r.files[r.index];
            r.created ==> r.files == files + [row] && r.index == |files| && r.nextFileId == nextId + 1
                          && row.id == nextId && row.checksum == "" && row.mediaItemId.None?
                          && row.sizeBytes == f.sizeBytes && row.lastModifiedAt == Some(f.mtime)
                          && r.requiresProbe && !r.updated
    ensures var r := UpsertFile(files, nextId, lib, loc, f, forceFull, now);
            var row := r.files[r.index];
            !r.created ==> |r.files| == |files| && r.nextFileId == nextId
                           && Some(r.index) == FirstWhere(files, PathQuery(lib, f.path))
                           && (r.updated <==> ShouldUpdate(files[r.index], f, forceFull))
                           && row.id == files[r.index].id && row.mediaItemId == files[r.index].mediaItemId
                           && row.checksum == files[r.index].checksum
                           && (r.updated ==> row.sizeBytes == f.sizeBytes && row.lastModifiedAt == Some(f.mtime))
                           && (!r.updated ==> row.sizeBytes == files[r.index].sizeBytes
                                              && row.lastModifiedAt == files[r.index].lastModifiedAt)
                           && (r.requiresProbe <==> r.updated || forceFull || files[r.index].checksum == "")
    ensures var r := UpsertFile(files, nextId, lib, loc, f, forceFull, now);
            forall i :: 0 <= i < |files| && i != r.index ==> r.files[i] == files[i]
    ensures var r := UpsertFile(files, nextId, lib, loc, f, forceFull, now);
            var row := r.files[r.index];
            PathQuery(lib, f.path)(row) && row.missingSince.None? && row.lastSeenAt == Some(now)
            && row.locationId == Some(loc.id) && row.relativePath == f.relativePath && row.fileName == f.name
    ensures var r := UpsertFile(files, nextId, lib, loc, f, forceFull, now);
            (FileIdsValid(files, nextId) ==> FileIdsValid(r.files, r.nextFileId))
            && (UniquePaths(files) ==> UniquePaths(r.files))
  {
    var m := FirstWhere(files, PathQuery(lib, f.path));
    if m.Some? {
      var r := UpsertFile(files, nextId, lib, loc, f, forceFull, now);
      assert forall i :: 0 <= i < |files| ==> r.files[i].id == files[i].id;
      assert forall i :: 0 <= i < |files| && i != m.value ==> r.files[i] == files[i];
    }
  }

  // ---------------------------------------------------------------------------
  // discover_files as a fold over the walk

  datatype WalkState = WalkState(
    files: seq<MediaFileRecord>,
    nextFileId: nat,
    stats: ScanStats,
    seen: set<string>,
    log: seq<string>,
    discovered: seq<Discovered>)

  /** The target filter: `file_record.media_item_id not in {None, target.id}` skips the file. */
  predicate Skipped(row: MediaFileRecord, target: Option<nat>) {
    target.Some? && row.mediaItemId.Some? && row.mediaItemId != target
  }

  /** One path the iterator yields. */
  function VisitFile(w: WalkState, lib: nat, loc: Location, f: DiskFile, forceFull: bool, target: Option<nat>, now: int): WalkState {
    if !Accepted(f) then w
    else
      var u := UpsertFile(w.files, w.nextFileId, lib, loc, f, forceFull, now);
      var stats := w.stats.(newFiles := w.stats.newFiles + (if u.created then 1 else 0),
                            updated := w.stats.updated + (if u.updated then 1 else 0));
      var row := u.files[u.index];
      var found := if Skipped(row, target) then [] else [Discovered(row.id, u.requiresProbe)];
      WalkState(u.files, u.nextFileId, stats, w.seen + {f.path}, w.log, w.discovered + found)
  }

  function VisitEntries(w: WalkState, lib: nat, loc: Location, entries: seq<DiskFile>, forceFull: bool,
                        target: Option<nat>, now: int): WalkState
    decreases |entries|
  {
    if entries == [] then w
    else VisitFile(VisitEntries(w, lib, loc, entries[..|entries| - 1], forceFull, target, now),
                   lib, loc, entries[|entries| - 1], forceFull, target, now)
  }

  function MissingPathMessage(path: string, libraryName: string): string {
    "Path '" + path + "' does not exist for library '" + libraryName + "'."
  }

  function NotDirectoryMessage(path: string): string {
    "Path '" + path + "' is not a directory; skipping."
  }

  function VisitLocation(w: WalkState, lib: nat, libraryName: string, loc: Location, listing: Listing,
                         forceFull: bool, target: Option<nat>, now: int): WalkState {
    match listing
    case Missing => w.(log := w.log + [MissingPathMessage(loc.path, libraryName)])
    case NotADirectory => w.(log := w.log + [NotDirectoryMessage(loc.path)])
    case Directory(entries) => VisitEntries(w, lib, loc, entries, forceFull, target, now)
  }

  function Walk(w: WalkState, lib: nat, libraryName: string, locs: seq<Location>, listings: seq<Listing>,
                forceFull: bool, target: Option<nat>, now: int): WalkState
    requires |locs| == |listings|
    decreases |locs|
  {
    if locs == [] then w
    else VisitLocation(Walk(w, lib, libraryName, locs[..|locs| - 1], listings[..|listings| - 1], forceFull, target, now),
                       lib, libraryName, locs[|locs| - 1], listings[|listings| - 1], forceFull, target, now)
  }

  /** Whether the suffix filter lets a yielded path through. */
  predicate Accepted(f: DiskFile) {
    f.isFile && IsMediaName(f.name)
  }

  /** The paths of the entries of one directory that `keep` lets through. */
  function PathsWhere(entries: seq<DiskFile>, keep: DiskFile -> bool): set<string>
    decreases |entries|
  {
    if entries == [] then {}
    else
      var f := entries[|entries| - 1];
      PathsWhere(entries[..|entries| - 1], keep) + (if keep(f) then {f.path} else {})
  }

  /** The paths the suffix filter lets through in one directory. */
  function AcceptedInEntries(entries: seq<DiskFile>): set<string> {
    PathsWhere(entries, Accepted)
  }

  /** The paths the suffix filter lets through over every listed directory. */
  function AcceptedPaths(listings: seq<Listing>): set<string>
    decreases |listings|
  {
    if listings == [] then {}
    else
      var last := listings[|listings| - 1];
      AcceptedPaths(listings[..|listings| - 1]) + (if last.Directory? then AcceptedInEntries(last.entries) else {})
  }

  lemma VisitEntriesSnoc(w: WalkState, lib: nat, loc: Location, entries: seq<DiskFile>, j: nat,
                         forceFull: bool, target: Option<nat>, now: int)
    requires j < |entries|
    ensures VisitEntries(w, lib, loc, entries[..j + 1], forceFull, target, now)
            == VisitFile(VisitEntries(w, lib, loc, entries[..j], forceFull, target, now), lib, loc, entries[j], forceFull, target, now)
  {
    assert entries[..j + 1][..j] == entries[..j];
  }

  /** A path is kept exactly when some entry `keep` lets through has it. */
  lemma {:induction false} PathsWhereIff(entries: seq<DiskFile>, keep: DiskFile -> bool, p: string)
    ensures p in PathsWhere(entries, keep) <==> exists i :: 0 <= i < |entries| && keep(entries[i]) && entries[i].path == p
    decreases |entries|
  {
    if entries != [] {
      var n := |entries| - 1;
      var init := entries[..n];
      PathsWhereIff(init, keep, p);
      if p in PathsWhere(init, keep) {
        var i :| 0 <= i < |init| && keep(init[i]) && init[i].path == p;
        assert entries[i] == init[i];
      }
      if exists i :: 0 <= i < |entries| && keep(entries[i]) && entries[i].path == p {
        var i :| 0 <= i < |entries| && keep(entries[i]) && entries[i].path == p;
        if i < n {
          assert init[i] == entries[i];
        }
      }
    }
  }

  /** A path is accepted in a directory exactly when some file entry with a media suffix has it. */
  lemma AcceptedInEntriesIff(entries: seq<DiskFile>, p: string)
    ensures p in AcceptedInEntries(entries) <==> exists i :: 0 <= i < |entries| && Accepted(entries[i]) && entries[i].path == p
  {
    PathsWhereIff(entries, Accepted, p);
  }

  /** What the walk itself leaves unchanged. */
  predicate WalkFrame(w: WalkState, w': WalkState) {
    |w.files| <= |w'.files| && w.log <= w'.log && w.discovered <= w'.discovered
    && w'.stats.total == w.stats.total && w'.stats.removed == w.stats.removed
    && w'.stats.matched == w.stats.matched && w'.stats.unmatched == w.stats.unmatched
    && w.stats.newFiles <= w'.stats.newFiles && w.stats.updated <= w'.stats.updated
  }

  /** Every discovered file's row is in the table, under a media file name. */
  predicate DiscoveredAreMedia(w: WalkState) {
    forall d :: d in w.discovered ==>
      exists i :: 0 <= i < |w.files| && w.files[i].id == d.fileId && IsMediaName(w.files[i].fileName)
  }

  /** The invariants one file keeps: the table's keys and paths stay distinct, discovered rows stay media files. */
  predicate WalkInvariant(w: WalkState) {
    DiscoveredAreMedia(w) && FileIdsValid(w.files, w.nextFileId) && UniquePaths(w.files)
  }

  lemma VisitFileSeen(w: WalkState, lib: nat, loc: Location, f: DiskFile, forceFull: bool, target: Option<nat>, now: int)
    ensures var w' := VisitFile(w, lib, loc, f, forceFull, target, now);
            w'.seen == w.seen + (if Accepted(f) then {f.path} else {}) && WalkFrame(w, w')
  {
    UpsertFileProps(w.files, w.nextFileId, lib, loc, f, forceFull, now);
  }

  lemma VisitFileKeeps(w: WalkState, lib: nat, loc: Location, f: DiskFile, forceFull: bool, target: Option<nat>, now: int)
    requires WalkInvariant(w)
    ensures WalkInvariant(VisitFile(w, lib, loc, f, forceFull, target, now))
  {
    if Accepted(f) {
      UpsertFileProps(w.files, w.nextFileId, lib, loc, f, forceFull, now);
      var u := UpsertFile(w.files, w.nextFileId, lib, loc, f, forceFull, now);
      var w' := VisitFile(w, lib, loc, f, forceFull, target, now);
      forall d | d in w'.discovered
        ensures exists i :: 0 <= i < |w'.files| && w'.files[i].id == d.fileId && IsMediaName(w'.files[i].fileName)
      {
        if d in w.discovered {
          var i :| 0 <= i < |w.files| && w.files[i].id == d.fileId && IsMediaName(w.files[i].fileName);
          if i == u.index {
            assert w'.files[u.index].id == d.fileId;
          } else {
            assert w'.files[i] == w.files[i];
          }
        } else {
          assert w'.files[u.index].id == d.fileId;
        }
      }
    }
  }

  lemma {:induction false} VisitEntriesSeen(w: WalkState, lib: nat, loc: Location, entries: seq<DiskFile>,
                                            forceFull: bool, target: Option<nat>, now: int)
    ensures var w' := VisitEntries(w, lib, loc, entries, forceFull, target, now);
            w'.seen == w.seen + AcceptedInEntries(entries) && WalkFrame(w, w')
    decreases |entries|
  {
    if entries != [] {
      var init := entries[..|entries| - 1];
      VisitEntriesSeen(w, lib, loc, init, forceFull, target, now);
      VisitFileSeen(VisitEntries(w, lib, loc, init, forceFull, target, now), lib, loc, entries[|entries| - 1], forceFull, target, now);
    }
  }

  lemma {:induction false} VisitEntriesKeeps(w: WalkState, lib: nat, loc: Location, entries: seq<DiskFile>,
                                             forceFull: bool, target: Option<nat>, now: int)
    requires WalkInvariant(w)
    ensures WalkInvariant(VisitEntries(w, lib, loc, entries, forceFull, target, now))
    decreases |entries|
  {
    if entries != [] {
      var init := entries[..|entries| - 1];
      VisitEntriesKeeps(w, lib, loc, init, forceFull, target, now);
      VisitFileKeeps(VisitEntries(w, lib, loc, init, forceFull, target, now), lib, loc, entries[|entries| - 1], forceFull, target, now);
    }
  }

  /** The walk sees exactly the paths the suffix filter accepts in every listed directory. */
  lemma {:induction false} WalkSeen(w: WalkState, lib: nat, libraryName: string, locs: seq<Location>, listings: seq<Listing>,
                                    forceFull: bool, target: Option<nat>, now: int)
    requires |locs| == |listings|
    ensures var w' := Walk(w, lib, libraryName, locs, listings, forceFull, target, now);
            w'.seen == w.seen + AcceptedPaths(listings) && WalkFrame(w, w')
    decreases |locs|
  {
    if locs != [] {
      var n := |locs| - 1;
      WalkSeen(w, lib, libraryName, locs[..n], listings[..n], forceFull, target, now);
      var v := Walk(w, lib, libraryName, locs[..n], listings[..n], forceFull, target, now);
      match listings[n]
      case Directory(entries) => VisitEntriesSeen(v, lib, locs[n], entries, forceFull, target, now);
      case _ =>
    }
  }

  /**
   * Every file the walk hands on is a media file recorded in the table, and
   * the table's keys and (library, path) pairs stay distinct.
   */
  lemma {:induction false} WalkKeeps(w: WalkState, lib: nat, libraryName: string, locs: seq<Location>, listings: seq<Listing>,
                                     forceFull: bool, target: Option<nat>, now: int)
    requires |locs| == |listings| && WalkInvariant(w)
    ensures WalkInvariant(Walk(w, lib, libraryName, locs, listings, forceFull, target, now))
    decreases |locs|
  {
    if locs != [] {
      var n := |locs| - 1;
      WalkKeeps(w, lib, libraryName, locs[..n], listings[..n], forceFull, target, now);
      var v := Walk(w, lib, libraryName, locs[..n], listings[..n], forceFull, target, now);
      match listings[n]
      case Directory(entries) => VisitEntriesKeeps(v, lib, locs[n], entries, forceFull, target, now);
      case _ =>
    }
  }

  // ---------------------------------------------------------------------------
  // mark_missing_files

  /** The rows the bulk update touches: this library's, not seen, with a non-empty path. */
  predicate Unseen(row: MediaFileRecord, lib: nat, seen: set<string>) {
    row.libraryId == lib && row.absolutePath !in seen && row.absolutePath != ""
  }

  function MarkMissing(files: seq<MediaFileRecord>, lib: nat, seen: set<string>, now: int): (r: seq<MediaFileRecord>)
    ensures |r| == |files|
    ensures forall i :: 0 <= i < |files| && Unseen(files[i], lib, seen) ==> r[i] == files[i].(missingSince := Some(now))
    ensures forall i :: 0 <= i < |files| && !Unseen(files[i], lib, seen) ==> r[i] == files[i]
  {
    seq(|files|, i requires 0 <= i < |files| =>
      if Unseen(files[i], lib, seen) then files[i].(missingSince := Some(now)) else files[i])
  }

  /** The row count the update reports. */
  function MissingCount(files: seq<MediaFileRecord>, lib: nat, seen: set<string>): (n: nat)
    ensures n <= |files|
    ensures n == 0 <==> forall i :: 0 <= i < |files| ==> !Unseen(files[i], lib, seen)
    decreases |files|
  {
    if files == [] then 0
    else
      var rest := MissingCount(files[..|files| - 1], lib, seen);
      assert forall i :: 0 <= i < |files| - 1 ==> files[..|files| - 1][i] == files[i];
      rest + (if Unseen(files[|files| - 1], lib, seen) then 1 else 0)
  }

  /** Marking again with the same seen set changes nothing and reports the same count. */
  lemma MarkMissingIdempotent(files: seq<MediaFileRecord>, lib: nat, seen: set<string>, now: int)
    ensures MarkMissing(MarkMissing(files, lib, seen, now), lib, seen, now) == MarkMissing(files, lib, seen, now)
    ensures MissingCount(MarkMissing(files, lib, seen, now), lib, seen) == MissingCount(files, lib, seen)
  {
    MissingCountSameRows(files, MarkMissing(files, lib, seen, now), lib, seen);
  }

  lemma {:induction false} MissingCountSameRows(a: seq<MediaFileRecord>, b: seq<MediaFileRecord>, lib: nat, seen: set<string>)
    requires |a| == |b| && forall i :: 0 <= i < |a| ==> (Unseen(a[i], lib, seen) <==> Unseen(b[i], lib, seen))
    ensures MissingCount(a, lib, seen) == MissingCount(b, lib, seen)
    decreases |a|
  {
    if a != [] {
      MissingCountSameRows(a[..|a| - 1], b[..|b| - 1], lib, seen);
    }
  }

  // ---------------------------------------------------------------------------
  // finalize

  /** The scan row `finalize` saves; `matched`/`unmatched` are the scanner's accumulated counters. */
  function Finalized(s: ScanRecord, matched: nat, unmatched: nat, summary: Option<string>, log: seq<string>, now: int): (r: ScanRecord)
    ensures r.status == Completed && r.processedFiles == r.totalFiles == s.totalFiles
    ensures r.matchedItems == matched && r.unmatchedFiles == unmatched
    ensures r.summary == OrElse(summary, s.summary) && r.log == Join(log, "\n")
    ensures r.finishedAt == Some(now) && r.updatedAt == now
    ensures r.startedAt == s.startedAt && r.taskId == s.taskId && r.id == s.id && r.extra == s.extra
    ensures r.newFiles == s.newFiles && r.updatedFiles == s.updatedFiles && r.removedFiles == s.removedFiles
  {
    s.(matchedItems := matched, unmatchedFiles := unmatched, summary := OrElse(summary, s.summary),
       log := Join(log, "\n"), finishedAt := Some(now), status := Completed, processedFiles := s.totalFiles,
       updatedAt := now)
  }

  /** `finalize` completes the scan as `mark_completed` does, and also writes the counters and the log. */
  lemma FinalizedIsCompletion(s: ScanRecord, matched: nat, unmatched: nat, summary: string, log: seq<string>, now: int)
    requires summary != ""
    ensures Finalized(s, matched, unmatched, Some(summary), log, now)
            == MarkedCompleted(s, summary, now).(matchedItems := matched, unmatchedFiles := unmatched, log := Join(log, "\n"))
  {
  }

  function TargetMissingMessage(itemId: nat, lib: nat): string {
    "Target media item " + NatToString(itemId) + " not found in library " + NatToString(lib) + "."
  }

  /** Whether the library holds an item with this id, as `MediaItem.objects.filter(pk=…, library=…)` asks. */
  predicate HasItem(items: seq<Item>, lib: nat, id: nat) {
    exists j :: 0 <= j < |items| && items[j].id == id && items[j].libraryId == lib
  }

  /** The rescan target a scanner keeps: the requested item when it belongs to the library. */
  function ScanTarget(items: seq<Item>, lib: nat, rescanItemId: Option<nat>): Option<nat> {
    if TruthyInt(rescanItemId) && HasItem(items, lib, rescanItemId.value) then rescanItemId else None
  }

  /** The log a new scanner starts with: one line when the requested target is not in the library. */
  function TargetLog(items: seq<Item>, lib: nat, rescanItemId: Option<nat>): seq<string> {
    if TruthyInt(rescanItemId) && !HasItem(items, lib, rescanItemId.value) then [TargetMissingMessage(rescanItemId.value, lib)]
    else []
  }

  /** The walk state of a new scanner over the tables `t`. */
  function ScanStart(t: Tables, lib: nat, rescanItemId: Option<nat>): WalkState {
    WalkState(t.files, t.nextFileId, NoStats, {}, TargetLog(t.items, lib, rescanItemId), [])
  }

  function NoLocationsMessage(libraryName: string): string {
    "Library '" + libraryName + "' has no configured locations."
  }

  function MarkedMissingMessage(count: nat): string {
    "Marked " + NatToString(count) + " files as missing."
  }

  class LibraryScanner {
    const library: Library
    const scan: LibraryScan
    const db: Database
    const forceFull: bool
    const rescanItemId: Option<nat>
    const now: int
    const targetItemId: Option<nat>
    var logMessages: seq<string>
    var stats: ScanStats
    var seenPaths: set<string>

    function Walked(): WalkState
      reads this, db
    {
      WalkState(db.files, db.nextFileId, stats, seenPaths, logMessages, [])
    }

    /** `LibraryScanner(library, scan, force_full, rescan_item_id)`; `now` is `timezone.now()`. */
    constructor (library: Library, scan: LibraryScan, db: Database, forceFull: bool, rescanItemId: Option<nat>, now: int)
      ensures this.library == library && this.scan == scan && this.db == db && this.now == now
      ensures this.forceFull == (forceFull || rescanItemId.Some?) && this.rescanItemId == rescanItemId
      ensures stats == NoStats && seenPaths == {}
      ensures !TruthyInt(rescanItemId) ==> targetItemId.None? && logMessages == []
      ensures TruthyInt(rescanItemId) ==>
                var m := FirstWhere(db.items, (x: Item) => x.id == rescanItemId.value && x.libraryId == library.id);
                (m.Some? ==> targetItemId == rescanItemId && logMessages == [])
                && (m.None? ==> targetItemId.None? && logMessages == [TargetMissingMessage(rescanItemId.value, library.id)])
      ensures targetItemId == ScanTarget(db.items, library.id, rescanItemId)
      ensures Walked() == ScanStart(db.State(), library.id, rescanItemId)
    {
      this.library := library;
      this.scan := scan;
      this.db := db;
      this.forceFull := forceFull || rescanItemId.Some?;
      this.rescanItemId := rescanItemId;
      this.now := now;
      stats := NoStats;
      seenPaths := {};
      var target: Option<nat> := None;
      var log: seq<string> := [];
      if TruthyInt(rescanItemId) {
        var m := FirstWhere(db.items, (x: Item) => x.id == rescanItemId.value && x.libraryId == library.id);
        if m.Some? {
          target := Some(db.items[m.value].id);
        } else {
          log := [TargetMissingMessage(rescanItemId.value, library.id)];
        }
      }
      targetItemId := target;
      logMessages := log;
    }

    /** `_ensure_file_record(location, file_path)`: returns the row's position and whether to probe. */
    method EnsureFileRecord(loc: Location, f: DiskFile) returns (index: nat, requiresProbe: bool)
      modifies this, db
      ensures var u := UpsertFile(old(db.files), old(db.nextFileId), library.id, loc, f, forceFull, now);
              db.files == u.files && db.nextFileId == u.nextFileId && index == u.index
              && requiresProbe == u.requiresProbe
              && stats == old(stats).(newFiles := old(stats).newFiles + (if u.created then 1 else 0),
                                      updated := old(stats).updated + (if u.updated then 1 else 0))
      ensures db.items == old(db.items) && db.nextItemId == old(db.nextItemId)
      ensures logMessages == old(logMessages) && seenPaths == old(seenPaths)
    {
      var m := FirstWhere(db.files, PathQuery(library.id, f.path));
      if m.None? {
        var row := MediaFileRecord(db.nextFileId, library.id, None, Some(loc.id), f.path, f.relativePath, f.name,
                                   f.sizeBytes, None, "", Some(f.mtime), Some(now), None);
        index := |db.files|;
        db.files := db.files + [row];
        db.nextFileId := db.nextFileId + 1;
        stats := stats.(newFiles := stats.newFiles + 1);
        requiresProbe := true;
      } else {
        index := m.value;
        var row := db.files[index];
        requiresProbe := false;
        if forceFull || row.lastModifiedAt.None? || f.mtime > row.lastModifiedAt.value {
          row := row.(sizeBytes := f.sizeBytes, lastModifiedAt := Some(f.mtime));
          stats := stats.(updated := stats.updated + 1);
          requiresProbe := true;
        }
        row := row.(lastSeenAt := Some(now), locationId := Some(loc.id), relativePath := f.relativePath,
                    fileName := f.name, missingSince := None);
        db.files := db.files[index := row];
        if forceFull || row.checksum == "" {
          requiresProbe := true;
        }
      }
    }

    /** One pass of the inner loop of `discover_files`. */
    method VisitPath(loc: Location, f: DiskFile, ghost w: WalkState) returns (found: seq<Discovered>)
      requires w == Walked().(discovered := w.discovered)
      modifies this, db
      ensures Walked().(discovered := w.discovered + found)
              == VisitFile(w, library.id, loc, f, forceFull, targetItemId, now)
      ensures db.items == old(db.items) && db.nextItemId == old(db.nextItemId)
    {
      found := [];
      if !(f.isFile && IsMediaName(f.name)) {
        return;
      }
      seenPaths := seenPaths + {f.path};
      var index, requiresProbe := EnsureFileRecord(loc, f);
      var row := db.files[index];
      if !(targetItemId.Some? && row.mediaItemId.Some? && row.mediaItemId != targetItemId) {
        found := [Discovered(row.id, requiresProbe)];
      }
    }

    /** The body of the outer loop of `discover_files`, for one location. */
    method VisitLocationFiles(loc: Location, listing: Listing, ghost w: WalkState) returns (found: seq<Discovered>)
      requires w == Walked().(discovered := w.discovered)
      modifies this, db
      ensures Walked().(discovered := w.discovered + found)
              == VisitLocation(w, library.id, library.name, loc, listing, forceFull, targetItemId, now)
      ensures db.items == old(db.items) && db.nextItemId == old(db.nextItemId)
    {
      found := [];
      match listing {
        case Missing =>
          logMessages := logMessages + [MissingPathMessage(loc.path, library.name)];
        case NotADirectory =>
          logMessages := logMessages + [NotDirectoryMessage(loc.path)];
        case Directory(entries) =>
          var j := 0;
          while j < |entries|
            invariant 0 <= j <= |entries|
            invariant Walked().(discovered := w.discovered + found)
                      == VisitEntries(w, library.id, loc, entries[..j], forceFull, targetItemId, now)
            invariant db.items == old(db.items) && db.nextItemId == old(db.nextItemId)
          {
            found := VisitEntryStep(loc, entries, j, w, found);
            j := j + 1;
          }
          assert entries[..j] == entries;
      }
    }

    /** One step of the inner loop: the walk state moves from the first `j` entries to the first `j + 1`. */
    method VisitEntryStep(loc: Location, entries: seq<DiskFile>, j: nat, ghost w: WalkState, found: seq<Discovered>)
      returns (found': seq<Discovered>)
      requires j < |entries|
      requires Walked().(discovered := w.discovered + found)
               == VisitEntries(w, library.id, loc, entries[..j], forceFull, targetItemId, now)
      modifies this, db
      ensures Walked().(discovered := w.discovered + found')
              == VisitEntries(w, library.id, loc, entries[..j + 1], forceFull, targetItemId, now)
      ensures db.items == old(db.items) && db.nextItemId == old(db.nextItemId)
    {
      ghost var before := Walked().(discovered := w.discovered + found);
      ghost var after := VisitFile(before, library.id, loc, entries[j], forceFull, targetItemId, now);
      VisitEntriesSnoc(w, library.id, loc, entries, j, forceFull, targetItemId, now);
      assert after == VisitEntries(w, library.id, loc, entries[..j + 1], forceFull, targetItemId, now);
      var more := VisitPath(loc, entries[j], before);
      assert Walked().(discovered := before.discovered + more) == after;
      found' := found + more;
      assert w.discovered + found' == before.discovered + more;
    }

    /** The outer loop of `discover_files`, over every location. */
    method WalkLocations(locs: seq<Location>, listings: seq<Listing>) returns (discovered: seq<Discovered>)
      requires |locs| == |listings|
      modifies this, db
      ensures Walked().(discovered := discovered)
              == Walk(old(Walked()), library.id, library.name, locs, listings, forceFull, targetItemId, now)
      ensures db.items == old(db.items) && db.nextItemId == old(db.nextItemId)
    {
      discovered := [];
      ghost var start := Walked();
      var i := 0;
      while i < |locs|
        invariant 0 <= i <= |locs|
        invariant Walked().(discovered := discovered)
                  == Walk(start, library.id, library.name, locs[..i], listings[..i], forceFull, targetItemId, now)
        invariant db.items == old(db.items) && db.nextItemId == old(db.nextItemId)
      {
        assert locs[..i + 1][..i] == locs[..i] && listings[..i + 1][..i] == listings[..i];
        var found := VisitLocationFiles(locs[i], listings[i], Walked().(discovered := discovered));
        discovered := discovered + found;
        i := i + 1;
      }
      assert locs[..i] == locs && listings[..i] == listings;
    }

    /**
     * `discover_files`, given the library's locations and what the walk finds
     * at each. With no locations it logs and returns without saving totals.
     */
    method DiscoverFiles(locs: seq<Location>, listings: seq<Listing>) returns (discovered: seq<Discovered>)
      requires |locs| == |listings|
      modifies this, db, scan
      ensures locs == [] ==> discovered == [] && logMessages == old(logMessages) + [NoLocationsMessage(library.name)]
                             && db.files == old(db.files) && db.nextFileId == old(db.nextFileId)
                             && scan.Record() == old(scan.Record())
                             && stats == old(stats) && seenPaths == old(seenPaths)
      ensures locs != [] ==>
                var w := Walk(old(Walked()), library.id, library.name, locs, listings, forceFull, targetItemId, now);
                discovered == w.discovered && db.files == w.files && db.nextFileId == w.nextFileId
                && seenPaths == w.seen && logMessages == w.log && stats == w.stats.(total := |w.seen|)
                && scan.Record() == old(scan.Record()).(totalFiles := |w.seen|, newFiles := w.stats.newFiles,
                                                        updatedFiles := w.stats.updated, updatedAt := now)
      ensures db.items == old(db.items) && db.nextItemId == old(db.nextItemId)
    {
      discovered := [];
      if locs == [] {
        logMessages := logMessages + [NoLocationsMessage(library.name)];
        return;
      }
      discovered := WalkLocations(locs, listings);
      stats := stats.(total := |seenPaths|);
      scan.SaveTotals(stats.total, stats.newFiles, stats.updated, now);
    }

    /** `mark_missing_files`: returns the number of rows marked. */
    method MarkMissingFiles() returns (count: nat)
      modifies this, db, scan
      ensures count == MissingCount(old(db.files), library.id, seenPaths)
      ensures db.files == MarkMissing(old(db.files), library.id, seenPaths, now)
      ensures seenPaths == old(seenPaths) && db.items == old(db.items) && db.nextItemId == old(db.nextItemId)
              && db.nextFileId == old(db.nextFileId)
      ensures count == 0 ==> stats == old(stats) && logMessages == old(logMessages) && scan.Record() == old(scan.Record())
      ensures count > 0 ==> stats == old(stats).(removed := old(stats).removed + count)
                            && logMessages == old(logMessages) + [MarkedMissingMessage(count)]
                            && scan.Record() == old(scan.Record()).(removedFiles := stats.removed, updatedAt := now)
    {
      count := MissingCount(db.files, library.id, seenPaths);
      db.files := MarkMissing(db.files, library.id, seenPaths, now);
      if count > 0 {
        stats := stats.(removed := stats.removed + count);
        logMessages := logMessages + [MarkedMissingMessage(count)];
        scan.removedFiles := stats.removed;
        scan.updatedAt := now;
      }
    }

    /** `finalize(matched, unmatched, summary)`; `at` is the completion time. */
    method Finalize(matched: nat, unmatched: nat, summary: Option<string>, at: int)
      modifies this, scan, library
      ensures stats == old(stats).(matched := old(stats).matched + matched, unmatched := old(stats).unmatched + unmatched)
      ensures scan.Record() == Finalized(old(scan.Record()), stats.matched, stats.unmatched, summary, logMessages, at)
      ensures library.Record() == old(library.Record()).(lastScanAt := Some(at), lastSuccessfulScanAt := Some(at))
      ensures logMessages == old(logMessages) && seenPaths == old(seenPaths)
    {
      stats := stats.(matched := stats.matched + matched, unmatched := stats.unmatched + unmatched);
      SaveFinishedScan(summary, at);
      library.lastScanAt := Some(at);
      library.lastSuccessfulScanAt := Some(at);
    }

    /** The scan row writes of `finalize`. */
    method SaveFinishedScan(summary: Option<string>, at: int)
      modifies scan
      ensures scan.Record() == Finalized(old(scan.Record()), stats.matched, stats.unmatched, summary, logMessages, at)
    {
      scan.matchedItems := stats.matched;
      scan.unmatchedFiles := stats.unmatched;
      scan.summary := OrElse(summary, scan.summary);
      scan.log := Join(logMessages, "\n");
      scan.finishedAt := Some(at);
      scan.status := Completed;
      scan.processedFiles := scan.totalFiles;
      scan.updatedAt := at;
    }
  }
}
