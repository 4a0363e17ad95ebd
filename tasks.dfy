/**
 * apps/media_library/tasks.py: the per-library scan queue (`_start_next_scan`,
 * `enqueue_library_scan`), the periodic tasks that feed and trim it, and the
 * identification loop of `scan_library_task`. Celery dispatches and channel
 * broadcasts are recorded as values the operations return.
 */
module Tasks {
  import opened Wrappers
  import opened Text
  import opened Models
  import opened Catalog
  import opened Classification
  import opened Resolution
  import opened Scanner

  // ---------------------------------------------------------------------------
  // The scan queue

  /** A scan the worker holds or has been handed: running, or pending with a task id. */
  predicate InFlight(s: ScanRecord, lib: nat) {
    s.libraryId == lib && (s.status == Running || (s.status == Pending && s.taskId.Some?))
  }

  /** A pending scan nobody has been handed yet. */
  predicate Waiting(s: ScanRecord, lib: nat) {
    s.libraryId == lib && s.status == Pending && s.taskId.None?
  }

  predicate HasInFlight(scans: seq<ScanRecord>, lib: nat) {
    exists i :: 0 <= i < |scans| && InFlight(scans[i], lib)
  }

  /** The queue's invariant: at most one scan of the library is in flight. */
  predicate AtMostOneInFlight(scans: seq<ScanRecord>, lib: nat) {
    forall i, j :: 0 <= i < |scans| && 0 <= j < |scans| && InFlight(scans[i], lib) && InFlight(scans[j], lib) ==> i == j
  }

  /** `order_by("created_at").first()` over the waiting scans: the earliest, the first row among equals. */
  function EarliestWaiting(scans: seq<ScanRecord>, lib: nat): (r: Option<nat>)
    ensures r.Some? ==> r.value < |scans|
    decreases |scans|
  {
    if scans == [] then None
    else
      var n := |scans| - 1;
      var rest := EarliestWaiting(scans[..n], lib);
      if Waiting(scans[n], lib) && (rest.None? || scans[n].createdAt < scans[rest.value].createdAt) then Some(n)
      else rest
  }

  lemma {:induction false} EarliestWaitingProps(scans: seq<ScanRecord>, lib: nat)
    ensures var r := EarliestWaiting(scans, lib);
            (r.None? <==> forall i :: 0 <= i < |scans| ==> !Waiting(scans[i], lib))
            && (r.Some? ==> Waiting(scans[r.value], lib)
                            && (forall i :: 0 <= i < |scans| && Waiting(scans[i], lib) ==> scans[r.value].createdAt <= scans[i].createdAt)
                            && (forall i :: 0 <= i < r.value && Waiting(scans[i], lib) ==> scans[r.value].createdAt < scans[i].createdAt))
    decreases |scans|
  {
    if scans != [] {
      var n := |scans| - 1;
      EarliestWaitingProps(scans[..n], lib);
      assert forall i :: 0 <= i < n ==> scans[..n][i] == scans[i];
    }
  }

  /** What `_start_next_scan` hands to Celery's `scan_library_task`. */
  datatype ScanRequest = ScanRequest(scanId: string, libraryId: nat, forceFull: bool, rescanItemId: Option<nat>)

  datatype Dispatch = Dispatch(scans: seq<ScanRecord>, request: Option<ScanRequest>)

  /** `_start_next_scan(library)`; `taskId` is the id Celery gives the dispatched task. */
  function StartedNext(scans: seq<ScanRecord>, lib: nat, taskId: string, now: int): (r: Dispatch)
    ensures |r.scans| == |scans|
  {
    if HasInFlight(scans, lib) then Dispatch(scans, None)
    else
      match EarliestWaiting(scans, lib)
      case None => Dispatch(scans, None)
      case Some(k) =>
        var s := scans[k];
        Dispatch(scans[k := s.(taskId := Some(taskId), updatedAt := now)],
                 Some(ScanRequest(s.id, s.libraryId, s.extra.forceFull, s.extra.rescanItemId)))
  }

  /** While a scan is in flight nothing is dispatched and nothing changes. */
  lemma StartedNextWhileBusy(scans: seq<ScanRecord>, lib: nat, taskId: string, now: int)
    requires HasInFlight(scans, lib)
    ensures StartedNext(scans, lib, taskId, now) == Dispatch(scans, None)
  {
  }

  /**
   * Otherwise exactly the earliest waiting scan gets the task id, and it
   * is what is dispatched; with no waiting scan nothing happens.
   */
  lemma StartedNextWhenIdle(scans: seq<ScanRecord>, lib: nat, taskId: string, now: int)
    requires !HasInFlight(scans, lib)
    ensures var r := StartedNext(scans, lib, taskId, now);
            (r.request.None? <==> forall i :: 0 <= i < |scans| ==> !Waiting(scans[i], lib))
            && (r.request.None? ==> r.scans == scans)
    ensures var r := StartedNext(scans, lib, taskId, now);
            r.request.Some? ==>
              exists k :: 0 <= k < |scans| && Waiting(scans[k], lib)
                && (forall i :: 0 <= i < |scans| && Waiting(scans[i], lib) ==> scans[k].createdAt <= scans[i].createdAt)
                && r.scans == scans[k := scans[k].(taskId := Some(taskId), updatedAt := now)]
                && r.request.value.scanId == scans[k].id && r.request.value.libraryId == lib
                && r.request.value.forceFull == scans[k].extra.forceFull
                && r.request.value.rescanItemId == scans[k].extra.rescanItemId
                && InFlight(r.scans[k], lib)
  {
    EarliestWaitingProps(scans, lib);
  }

  /** The dispatcher keeps at most one scan of any library in flight. */
  lemma StartedNextKeepsOneInFlight(scans: seq<ScanRecord>, lib: nat, other: nat, taskId: string, now: int)
    requires AtMostOneInFlight(scans, other)
    ensures AtMostOneInFlight(StartedNext(scans, lib, taskId, now).scans, other)
  {
    var r := StartedNext(scans, lib, taskId, now);
    if !HasInFlight(scans, lib) {
      match EarliestWaiting(scans, lib)
      case None =>
      case Some(k) =>
        EarliestWaitingProps(scans, lib);
        forall i, j | 0 <= i < |r.scans| && 0 <= j < |r.scans| && InFlight(r.scans[i], other) && InFlight(r.scans[j], other)
          ensures i == j
        {
          if other != lib {
            assert InFlight(scans[i], other) && InFlight(scans[j], other);
          }
        }
    }
  }

  /** A new pending scan, as `LibraryScan.objects.create` stores it. */
  function NewScan(id: string, lib: nat, extra: ScanExtra, now: int): ScanRecord {
    ScanRecord(id, lib, Pending, None, None, 0, 0, 0, 0, 0, 0, 0, None, "", "", extra, now, now)
  }

  /** `enqueue_library_scan`: store a pending scan, then run the dispatcher. */
  function Enqueued(scans: seq<ScanRecord>, lib: nat, scanId: string, extra: ScanExtra, taskId: string, now: int): (r: Dispatch)
    ensures |r.scans| == |scans| + 1
  {
    StartedNext(scans + [NewScan(scanId, lib, extra, now)], lib, taskId, now)
  }

  /** On an idle library with no scan waiting, the new scan is dispatched at once. */
  lemma EnqueuedOnIdleLibrary(scans: seq<ScanRecord>, lib: nat, scanId: string, extra: ScanExtra, taskId: string, now: int)
    requires !HasInFlight(scans, lib)
    requires forall i :: 0 <= i < |scans| ==> !Waiting(scans[i], lib)
    ensures var r := Enqueued(scans, lib, scanId, extra, taskId, now);
            r.scans == scans + [NewScan(scanId, lib, extra, now).(taskId := Some(taskId))]
            && r.request == Some(ScanRequest(scanId, lib, extra.forceFull, extra.rescanItemId))
  {
    var all := scans + [NewScan(scanId, lib, extra, now)];
    assert forall i :: 0 <= i < |scans| ==> all[i] == scans[i];
    assert !HasInFlight(all, lib);
    EarliestWaitingProps(all, lib);
    var k := EarliestWaiting(all, lib).value;
    assert k == |scans|;
  }

  /** On a busy library the new scan only waits. */
  lemma EnqueuedOnBusyLibrary(scans: seq<ScanRecord>, lib: nat, scanId: string, extra: ScanExtra, taskId: string, now: int)
    requires HasInFlight(scans, lib)
    ensures Enqueued(scans, lib, scanId, extra, taskId, now) == Dispatch(scans + [NewScan(scanId, lib, extra, now)], None)
  {
    var all := scans + [NewScan(scanId, lib, extra, now)];
    var i :| 0 <= i < |scans| && InFlight(scans[i], lib);
    assert all[i] == scans[i];
  }

  lemma EnqueuedKeepsOneInFlight(scans: seq<ScanRecord>, lib: nat, other: nat, scanId: string, extra: ScanExtra, taskId: string, now: int)
    requires AtMostOneInFlight(scans, other)
    ensures AtMostOneInFlight(Enqueued(scans, lib, scanId, extra, taskId, now).scans, other)
  {
    var all := scans + [NewScan(scanId, lib, extra, now)];
    assert forall i :: 0 <= i < |scans| ==> all[i] == scans[i];
    assert !InFlight(all[|scans|], other);
    StartedNextKeepsOneInFlight(all, lib, other, taskId, now);
  }

  /** The `LibraryScan` table, which the queue operations read and write. */
  class ScanTable {
    var scans: seq<ScanRecord>

    constructor (rows: seq<ScanRecord>)
      ensures scans == rows
    {
      scans := rows;
    }

    /** `_start_next_scan(library)`. */
    method StartNextScan(lib: nat, taskId: string, now: int) returns (request: Option<ScanRequest>)
      modifies this
      ensures StartedNext(old(scans), lib, taskId, now) == Dispatch(scans, request)
    {
      request := None;
      if exists i :: 0 <= i < |scans| && InFlight(scans[i], lib) {
        return;
      }
      var pending := EarliestWaiting(scans, lib);
      if pending.None? {
        return;
      }
      var k := pending.value;
      var s := scans[k];
      scans := scans[k := s.(taskId := Some(taskId), updatedAt := now)];
      request := Some(ScanRequest(s.id, s.libraryId, s.extra.forceFull, s.extra.rescanItemId));
    }

    /** `enqueue_library_scan`; `scanId` is the new row's UUID. */
    method EnqueueLibraryScan(lib: nat, scanId: string, forceFull: bool, rescanItemId: Option<nat>, taskId: string, now: int)
      returns (request: Option<ScanRequest>)
      modifies this
      ensures Enqueued(old(scans), lib, scanId, ScanExtra(forceFull, rescanItemId), taskId, now) == Dispatch(scans, request)
    {
      scans := scans + [NewScan(scanId, lib, ScanExtra(forceFull, rescanItemId), now)];
      request := StartNextScan(lib, taskId, now);
    }

    /** `schedule_auto_scans`; the i-th library's new scan gets `scanIds(i)` and, if dispatched, task `taskIds(i)`. */
    method ScheduleAutoScans(libraries: seq<LibraryRecord>, now: int, scanIds: nat -> string, taskIds: nat -> string)
      returns (requests: seq<ScanRequest>)
      modifies this
      ensures Scheduled(old(scans), libraries, now, scanIds, taskIds) == Schedule(scans, requests)
    {
      requests := [];
      var i := 0;
      while i < |libraries|
        invariant 0 <= i <= |libraries|
        invariant Scheduled(old(scans), libraries[..i], now, scanIds, taskIds) == Schedule(scans, requests)
      {
        assert libraries[..i + 1][..i] == libraries[..i];
        var l := libraries[i];
        if l.autoScanEnabled {
          if l.lastScanAt.None? {
            var r := EnqueueLibraryScan(l.id, scanIds(i), false, None, taskIds(i), now);
            requests := requests + OptionList(r);
          } else if l.lastScanAt.value + l.scanIntervalMinutes * MinuteUs <= now {
            var r := EnqueueLibraryScan(l.id, scanIds(i), false, None, taskIds(i), now);
            requests := requests + OptionList(r);
          }
        }
        i := i + 1;
      }
      assert libraries[..i] == libraries;
    }

    /** `prune_stale_scans(max_age_hours)`; returns how many rows were deleted. */
    method PruneStaleScans(maxAgeHours: int, now: int) returns (deleted: nat)
      modifies this
      ensures scans == Pruned(old(scans), now - maxAgeHours * HourUs)
      ensures deleted == |old(scans)| - |scans|
    {
      var threshold := now - maxAgeHours * HourUs;
      var kept: seq<ScanRecord> := [];
      var i := 0;
      while i < |scans|
        invariant 0 <= i <= |scans| && kept == Pruned(scans[..i], threshold)
      {
        assert scans[..i + 1][..i] == scans[..i];
        if !Stale(scans[i], threshold) {
          kept := kept + [scans[i]];
        }
        i := i + 1;
      }
      assert scans[..i] == scans;
      PrunedCount(scans, threshold);
      deleted := |scans| - |kept|;
      scans := kept;
    }
  }

  // ---------------------------------------------------------------------------
  // schedule_auto_scans

  /** A library is due when it was never scanned or its interval has passed. */
  predicate Due(l: LibraryRecord, now: int) {
    l.lastScanAt.None? || l.lastScanAt.value + l.scanIntervalMinutes * MinuteUs <= now
  }

  function OptionList<T>(o: Option<T>): (r: seq<T>)
    ensures o.Some? ==> r == [o.value]
    ensures o.None? ==> r == []
  {
    if o.Some? then [o.value] else []
  }

  datatype Schedule = Schedule(scans: seq<ScanRecord>, requests: seq<ScanRequest>)

  function Scheduled(scans: seq<ScanRecord>, libraries: seq<LibraryRecord>, now: int,
                     scanIds: nat -> string, taskIds: nat -> string): (r: Schedule)
    decreases |libraries|
  {
    if libraries == [] then Schedule(scans, [])
    else
      var n := |libraries| - 1;
      var before := Scheduled(scans, libraries[..n], now, scanIds, taskIds);
      var l := libraries[n];
      if l.autoScanEnabled && Due(l, now) then
        var d := Enqueued(before.scans, l.id, scanIds(n), ScanExtra(false, None), taskIds(n), now);
        Schedule(d.scans, before.requests + OptionList(d.request))
      else before
  }

  /** The libraries that get a scan: enabled and due, in order. */
  function DueLibraries(libraries: seq<LibraryRecord>, now: int): (r: seq<nat>)
    ensures |r| <= |libraries|
    ensures forall x :: x in r <==>
              exists i :: 0 <= i < |libraries| && libraries[i].id == x && libraries[i].autoScanEnabled && Due(libraries[i], now)
    decreases |libraries|
  {
    if libraries == [] then []
    else
      var n := |libraries| - 1;
      var l := libraries[n];
      DueLibraries(libraries[..n], now) + (if l.autoScanEnabled && Due(l, now) then [l.id] else [])
  }

  /** A row's identity, library and status, which the dispatcher never writes. */
  predicate SameKey(a: ScanRecord, b: ScanRecord) {
    a.id == b.id && a.libraryId == b.libraryId && a.status == b.status
  }

  lemma StartedNextKeepsKeys(scans: seq<ScanRecord>, lib: nat, taskId: string, now: int)
    ensures var d := StartedNext(scans, lib, taskId, now).scans;
            forall i :: 0 <= i < |scans| ==> SameKey(d[i], scans[i])
  {
  }

  /**
   * `schedule_auto_scans` keeps the existing rows' libraries and statuses,
   * and appends one new scan per enabled, due library, in order.
   */
  lemma {:induction false} ScheduledAppendsDue(scans: seq<ScanRecord>, libraries: seq<LibraryRecord>, now: int,
                                               scanIds: nat -> string, taskIds: nat -> string)
    ensures var r := Scheduled(scans, libraries, now, scanIds, taskIds).scans;
            var due := DueLibraries(libraries, now);
            |r| == |scans| + |due|
            && (forall i :: 0 <= i < |scans| ==> SameKey(r[i], scans[i]))
            && (forall i :: 0 <= i < |due| ==> r[|scans| + i].libraryId == due[i] && r[|scans| + i].status == Pending)
    decreases |libraries|
  {
    if libraries != [] {
      var n := |libraries| - 1;
      var before := Scheduled(scans, libraries[..n], now, scanIds, taskIds).scans;
      ScheduledAppendsDue(scans, libraries[..n], now, scanIds, taskIds);
      var l := libraries[n];
      var prev := DueLibraries(libraries[..n], now);
      if l.autoScanEnabled && Due(l, now) {
        var all := before + [NewScan(scanIds(n), l.id, ScanExtra(false, None), now)];
        var d := StartedNext(all, l.id, taskIds(n), now).scans;
        StartedNextKeepsKeys(all, l.id, taskIds(n), now);
        assert Scheduled(scans, libraries, now, scanIds, taskIds).scans == d;
        var due := DueLibraries(libraries, now);
        assert due == prev + [l.id];
        forall i | 0 <= i < |scans|
          ensures SameKey(d[i], scans[i])
        {
          assert SameKey(d[i], all[i]) && all[i] == before[i];
        }
        forall i | 0 <= i < |due|
          ensures d[|scans| + i].libraryId == due[i] && d[|scans| + i].status == Pending
        {
          assert SameKey(d[|scans| + i], all[|scans| + i]);
          if i < |prev| {
            assert due[i] == prev[i];
            assert all[|scans| + i] == before[|scans| + i];
          } else {
            assert |scans| + i == |all| - 1;
          }
        }
      } else {
        assert DueLibraries(libraries, now) == prev;
        assert Scheduled(scans, libraries, now, scanIds, taskIds).scans == before;
        forall i | 0 <= i < |prev|
          ensures before[|scans| + i].libraryId == prev[i] && before[|scans| + i].status == Pending
        {
        }
      }
    }
  }

  lemma {:induction false} ScheduledKeepsOneInFlight(scans: seq<ScanRecord>, libraries: seq<LibraryRecord>, now: int,
                                                     scanIds: nat -> string, taskIds: nat -> string, lib: nat)
    requires AtMostOneInFlight(scans, lib)
    ensures AtMostOneInFlight(Scheduled(scans, libraries, now, scanIds, taskIds).scans, lib)
    decreases |libraries|
  {
    if libraries != [] {
      var n := |libraries| - 1;
      var before := Scheduled(scans, libraries[..n], now, scanIds, taskIds);
      ScheduledKeepsOneInFlight(scans, libraries[..n], now, scanIds, taskIds, lib);
      var l := libraries[n];
      if l.autoScanEnabled && Due(l, now) {
        EnqueuedKeepsOneInFlight(before.scans, l.id, lib, scanIds(n), ScanExtra(false, None), taskIds(n), now);
      }
    }
  }

  // ---------------------------------------------------------------------------
  // prune_stale_scans

  /** A finished scan (completed or failed) created before the threshold. */
  predicate Stale(s: ScanRecord, threshold: int) {
    (s.status == Completed || s.status == Failed) && s.createdAt < threshold
  }

  function Pruned(scans: seq<ScanRecord>, threshold: int): (r: seq<ScanRecord>)
    ensures |r| <= |scans|
    decreases |scans|
  {
    if scans == [] then []
    else
      var n := |scans| - 1;
      Pruned(scans[..n], threshold) + (if Stale(scans[n], threshold) then [] else [scans[n]])
  }

  function StaleCount(scans: seq<ScanRecord>, threshold: int): (n: nat)
    decreases |scans|
  {
    if scans == [] then 0
    else
      var k := |scans| - 1;
      StaleCount(scans[..k], threshold) + (if Stale(scans[k], threshold) then 1 else 0)
  }

  /** Exactly the stale rows go, and the rest stay in order. */
  lemma {:induction false} PrunedMembers(scans: seq<ScanRecord>, threshold: int)
    ensures forall s :: s in Pruned(scans, threshold) <==> s in scans && !Stale(s, threshold)
    ensures forall i :: 0 <= i < |Pruned(scans, threshold)| ==> !Stale(Pruned(scans, threshold)[i], threshold)
    decreases |scans|
  {
    if scans != [] {
      var n := |scans| - 1;
      PrunedMembers(scans[..n], threshold);
      assert scans == scans[..n] + [scans[n]];
    }
  }

  lemma {:induction false} PrunedCount(scans: seq<ScanRecord>, threshold: int)
    ensures |Pruned(scans, threshold)| + StaleCount(scans, threshold) == |scans|
    decreases |scans|
  {
    if scans != [] {
      PrunedCount(scans[..|scans| - 1], threshold);
    }
  }

  /** Pending, running and cancelled scans are never deleted, whatever their age. */
  lemma PrunedKeepsUnfinished(scans: seq<ScanRecord>, threshold: int, s: ScanRecord)
    requires s in scans && s.status in {Pending, Running, Cancelled}
    ensures s in Pruned(scans, threshold)
  {
    PrunedMembers(scans, threshold);
  }

  // ---------------------------------------------------------------------------
  // _identify_media_file

  /** The library-type override of the detected type. */
  function LibraryTypeOverride(lt: LibraryType, t: ItemType): (r: ItemType)
    ensures lt == MoviesLibrary ==> r == Movie
    ensures lt == ShowsLibrary ==> (t == Movie ==> r == Show) && (t != Movie ==> r == t)
    ensures (lt == MixedLibrary || lt == OtherLibrary) ==> r == t
  {
    match lt
    case MoviesLibrary => Movie
    case ShowsLibrary => if t == Movie then Show else t
    case _ => t
  }

  lemma LibraryTypeOverrideIdempotent(lt: LibraryType, t: ItemType)
    ensures LibraryTypeOverride(lt, LibraryTypeOverride(lt, t)) == LibraryTypeOverride(lt, t)
  {
  }

  /** What `_identify_media_file` returns, and the parent it asks to sync. */
  datatype Identification = Identification(
    mediaItemId: Option<nat>, parentMediaItemId: Option<nat>, matched: nat, unmatched: nat, syncParent: Option<nat>)

  datatype Identified = Identified(tables: Tables, result: Identification)

  function FileQuery(fileId: nat, lib: nat): MediaFileRecord -> bool {
    (f: MediaFileRecord) => f.id == fileId && f.libraryId == lib
  }

  function ItemInLibrary(itemId: nat, lib: nat): Item -> bool {
    (x: Item) => x.id == itemId && x.libraryId == lib
  }

  /** The classification after the library-type override. */
  function ClassifiedFor(lib: LibraryRecord, fileName: string, outcome: GuessOutcome): (c: ClassificationResult)
    ensures c == ClassifyMediaFile(fileName, outcome).(detectedType := c.detectedType)
    ensures c.detectedType == LibraryTypeOverride(lib.libraryType, ClassifyMediaFile(fileName, outcome).detectedType)
  {
    var c0 := ClassifyMediaFile(fileName, outcome);
    c0.(detectedType := LibraryTypeOverride(lib.libraryType, c0.detectedType))
  }

  /** The parent of an episode: marked matched, and asked to sync when unsynced or without poster. */
  function MarkedParent(items: seq<Item>, parentId: nat): (r: (seq<Item>, Option<nat>))
    ensures |r.0| == |items|
  {
    match ItemIndex(items, parentId)
    case None => (items, None)
    case Some(p) =>
      var parent := items[p];
      (items[p := parent.(status := Matched)],
       if parent.metadataLastSyncedAt.None? || parent.posterUrl == "" then Some(parent.id) else None)
  }

  /** The status writes: failed for an `other` classification, matched (and the parent too) otherwise. */
  function MarkedItems(items: seq<Item>, k: nat, t: ItemType): (r: (seq<Item>, Option<nat>))
    requires k < |items|
    ensures |r.0| == |items|
  {
    if t == OtherType then (items[k := items[k].(status := ItemFailed)], None)
    else
      var marked := items[k := items[k].(status := Matched)];
      var parent := marked[k].parentId;
      if t == Episode && parent.Some? && parent.value != 0 then MarkedParent(marked, parent.value)
      else (marked, None)
  }

  /** The file row after identification: linked to its item, with a checksum if it had none. */
  function LinkedFile(f: MediaFileRecord, itemId: nat, checksum: string): (r: MediaFileRecord)
    ensures r.mediaItemId == Some(itemId)
    ensures f.checksum != "" ==> r.checksum == f.checksum
    ensures f.checksum == "" ==> r.checksum == checksum
    ensures r == f.(mediaItemId := r.mediaItemId, checksum := r.checksum)
  {
    f.(mediaItemId := Some(itemId), checksum := if f.checksum == "" then checksum else f.checksum)
  }

  /**
   * `_identify_media_file(library, file_id, target_item_id)`. `guess` is
   * guessit's answer for a file name and `checksumOf` the checksum of a path.
   */
  function IdentifiedFile(t: Tables, lib: LibraryRecord, fileId: nat, target: Option<nat>,
                          guess: string -> GuessOutcome, checksumOf: string -> string): (r: Identified)
  {
    match FirstWhere(t.files, FileQuery(fileId, lib.id))
    case None => Identified(t, Identification(None, None, 0, 0, None))
    case Some(fi) => IdentifiedFound(t, lib, fi, target, guess, checksumOf)
  }

  /** The same for the record at position `fi` of the file table. */
  function IdentifiedFound(t: Tables, lib: LibraryRecord, fi: nat, target: Option<nat>,
                           guess: string -> GuessOutcome, checksumOf: string -> string): (r: Identified)
    requires fi < |t.files|
  {
    var file := t.files[fi];
    var c := ClassifiedFor(lib, file.fileName, guess(file.fileName));
    var ti := if TruthyInt(target) then FirstWhere(t.items, ItemInLibrary(target.value, lib.id)) else None;
    var res := Resolve(t.items, t.nextItemId, lib.id, c, ti);
    var item := res.items[res.index];
    var marked := MarkedItems(res.items, res.index, c.detectedType);
    var files := t.files[fi := LinkedFile(file, item.id, checksumOf(file.absolutePath))];
    var other := c.detectedType == OtherType;
    Identified(Tables(marked.0, res.nextId, files, t.nextFileId),
               Identification(Some(item.id), item.parentId, if other then 0 else 1, if other then 1 else 0, marked.1))
  }

  /** Per file: a missing record changes nothing and counts nothing; an existing one counts exactly once. */
  lemma IdentifiedAccounting(t: Tables, lib: LibraryRecord, fileId: nat, target: Option<nat>,
                             guess: string -> GuessOutcome, checksumOf: string -> string)
    ensures var r := IdentifiedFile(t, lib, fileId, target, guess, checksumOf);
            var fi := FirstWhere(t.files, FileQuery(fileId, lib.id));
            (fi.None? ==> r.tables == t && r.result == Identification(None, None, 0, 0, None))
            && (fi.Some? ==> r.result.matched + r.result.unmatched == 1 && r.result.mediaItemId.Some?)
            && (fi.Some? ==>
                  (r.result.unmatched == 1 <==>
                   ClassifiedFor(lib, t.files[fi.value].fileName, guess(t.files[fi.value].fileName)).detectedType == OtherType))
  {
  }

  /** The file is linked to the item it resolved to, and that item gets its status. */
  lemma IdentifiedLinksAndMarks(t: Tables, lib: LibraryRecord, fileId: nat, target: Option<nat>,
                                guess: string -> GuessOutcome, checksumOf: string -> string)
    requires FirstWhere(t.files, FileQuery(fileId, lib.id)).Some?
    requires ItemIdsValid(t.items, t.nextItemId)
    ensures var r := IdentifiedFile(t, lib, fileId, target, guess, checksumOf);
            var fi := FirstWhere(t.files, FileQuery(fileId, lib.id)).value;
            |r.tables.files| == |t.files| && r.tables.nextFileId == t.nextFileId
            && r.tables.files[fi] == LinkedFile(t.files[fi], r.result.mediaItemId.value, checksumOf(t.files[fi].absolutePath))
            && (forall j :: 0 <= j < |t.files| && j != fi ==> r.tables.files[j] == t.files[j])
            && ItemIdsValid(r.tables.items, r.tables.nextItemId)
            && (exists k :: 0 <= k < |r.tables.items| && r.tables.items[k].id == r.result.mediaItemId.value
                  && r.tables.items[k].status == (if r.result.unmatched == 1 then ItemFailed else Matched))
  {
    var fi := FirstWhere(t.files, FileQuery(fileId, lib.id)).value;
    var file := t.files[fi];
    var c := ClassifiedFor(lib, file.fileName, guess(file.fileName));
    var ti := if TruthyInt(target) then FirstWhere(t.items, ItemInLibrary(target.value, lib.id)) else None;
    var res := Resolve(t.items, t.nextItemId, lib.id, c, ti);
    var k := res.index;
    var marked := MarkedItems(res.items, k, c.detectedType);
    MarkedItemsProps(res.items, res.nextId, k, c.detectedType);
  }

  /** The status writes keep every key and mark the resolved item; a parent is only ever marked matched. */
  lemma MarkedItemsProps(items: seq<Item>, nextId: nat, k: nat, t: ItemType)
    requires k < |items| && ItemIdsValid(items, nextId)
    ensures var r := MarkedItems(items, k, t).0;
            ItemIdsValid(r, nextId)
            && (forall j :: 0 <= j < |items| ==> r[j] == items[j].(status := r[j].status))
            && (forall j :: 0 <= j < |items| && j != k ==> r[j].status == items[j].status || r[j].status == Matched)
            && r[k].status == (if t == OtherType then ItemFailed else Matched)
  {
    var r := MarkedItems(items, k, t).0;
    if t == OtherType {
      assert r == items[k := items[k].(status := ItemFailed)];
    } else {
      var marked := items[k := items[k].(status := Matched)];
      var parent := marked[k].parentId;
      if t == Episode && parent.Some? && parent.value != 0 {
        MarkedParentStatuses(marked, parent.value);
      } else {
        assert r == marked;
      }
    }
    assert forall j :: 0 <= j < |items| ==> r[j].id == items[j].id;
  }

  /** Marking the parent matched changes only the status of the row with that id. */
  lemma MarkedParentStatuses(items: seq<Item>, parentId: nat)
    ensures var r := MarkedParent(items, parentId).0;
            (forall j :: 0 <= j < |items| ==> r[j] == items[j].(status := r[j].status))
            && (forall j :: 0 <= j < |items| ==> r[j].status == items[j].status || (items[j].id == parentId && r[j].status == Matched))
  {
    match ItemIndex(items, parentId)
    case None =>
    case Some(p) =>
      assert items[p].id == parentId;
  }

  // ---------------------------------------------------------------------------
  // The identification loop of scan_library_task

  /** One `progress` event of the scan. */
  datatype ProgressEvent = ProgressEvent(processed: nat, total: nat, matched: nat, unmatched: nat)

  /**
   * The loop's variables: the tables, the counters, the `media_item_ids`
   * set, the items announced so far, the files sent to the probe task and
   * the progress events.
   */
  datatype LoopState = LoopState(
    tables: Tables, processed: nat, matched: nat, unmatched: nat,
    mediaItemIds: set<nat>, announced: seq<nat>, probes: seq<nat>, events: seq<ProgressEvent>)

  /** The truthy ones of the item id and its parent id, each once. */
  function Candidates(r: Identification): (c: seq<nat>)
    ensures forall i :: 0 <= i < |c| ==> c[i] != 0
    ensures forall i, j :: 0 <= i < |c| && 0 <= j < |c| && i != j ==> c[i] != c[j]
  {
    var own := if r.mediaItemId.Some? && r.mediaItemId.value != 0 then [r.mediaItemId.value] else [];
    var parent := if r.parentMediaItemId.Some? && r.parentMediaItemId.value != 0 && r.parentMediaItemId != r.mediaItemId
                  then [r.parentMediaItemId.value] else [];
    own + parent
  }

  /** Each candidate not yet in `media_item_ids` is added, and announced if its row exists. */
  function Announced(ids: set<nat>, announced: seq<nat>, cands: seq<nat>, items: seq<Item>): (r: (set<nat>, seq<nat>))
    ensures r.0 == ids + set c | c in cands
    ensures forall x :: x in r.1 ==> x in announced || (x in cands && x !in ids)
    ensures announced <= r.1
    decreases |cands|
  {
    if cands == [] then (ids, announced)
    else
      var c := cands[0];
      var isNew := c !in ids && ItemIndex(items, c).Some?;
      Announced(ids + {c}, announced + (if isNew then [c] else []), cands[1..], items)
  }

  predicate NoDuplicates(s: seq<nat>) {
    forall i, j :: 0 <= i < |s| && 0 <= j < |s| && i != j ==> s[i] != s[j]
  }

  /** An item never gets two announcements: announced ids are all in the set, each once. */
  lemma {:induction false} AnnouncedOnce(ids: set<nat>, announced: seq<nat>, cands: seq<nat>, items: seq<Item>)
    requires NoDuplicates(announced) && (forall x :: x in announced ==> x in ids)
    ensures var r := Announced(ids, announced, cands, items);
            NoDuplicates(r.1) && (forall x :: x in r.1 ==> x in r.0)
    decreases |cands|
  {
    if cands != [] {
      var c := cands[0];
      var isNew := c !in ids && ItemIndex(items, c).Some?;
      var next := announced + (if isNew then [c] else []);
      assert forall i :: 0 <= i < |announced| ==> next[i] == announced[i];
      AnnouncedOnce(ids + {c}, next, cands[1..], items);
    }
  }

  /** The loop's bookkeeping once the file is identified as `idf`. */
  function Advanced(s: LoopState, idf: Identified, d: Discovered, total: nat): (r: LoopState)
    ensures r.processed == s.processed + 1
    ensures r.events == s.events + [ProgressEvent(r.processed, total, r.matched, r.unmatched)]
    ensures r.probes == s.probes + (if d.requiresProbe then [d.fileId] else [])
  {
    var matched := s.matched + idf.result.matched;
    var unmatched := s.unmatched + idf.result.unmatched;
    var a := Announced(s.mediaItemIds, s.announced, Candidates(idf.result), idf.tables.items);
    LoopState(idf.tables, s.processed + 1, matched, unmatched, a.0, a.1,
              s.probes + (if d.requiresProbe then [d.fileId] else []),
              s.events + [ProgressEvent(s.processed + 1, total, matched, unmatched)])
  }

  /** One pass of the loop body for the discovery `d`. */
  function LoopStep(s: LoopState, lib: LibraryRecord, d: Discovered, target: Option<nat>, total: nat,
                    guess: string -> GuessOutcome, checksumOf: string -> string): (r: LoopState)
    ensures r.processed == s.processed + 1
    ensures r.matched + r.unmatched <= s.matched + s.unmatched + 1
    ensures r.events == s.events + [ProgressEvent(r.processed, total, r.matched, r.unmatched)]
    ensures r.probes == s.probes + (if d.requiresProbe then [d.fileId] else [])
  {
    IdentifiedAccounting(s.tables, lib, d.fileId, target, guess, checksumOf);
    Advanced(s, IdentifiedFile(s.tables, lib, d.fileId, target, guess, checksumOf), d, total)
  }

  lemma LoopStepIsAdvanced(s: LoopState, lib: LibraryRecord, d: Discovered, target: Option<nat>, total: nat,
                           guess: string -> GuessOutcome, checksumOf: string -> string)
    ensures LoopStep(s, lib, d, target, total, guess, checksumOf)
            == Advanced(s, IdentifiedFile(s.tables, lib, d.fileId, target, guess, checksumOf), d, total)
  {
  }

  /** The loop over the discoveries, as a fold. */
  function Processed(s: LoopState, lib: LibraryRecord, ds: seq<Discovered>, target: Option<nat>, total: nat,
                     guess: string -> GuessOutcome, checksumOf: string -> string): (r: LoopState)
    decreases |ds|
  {
    if ds == [] then s
    else LoopStep(Processed(s, lib, ds[..|ds| - 1], target, total, guess, checksumOf), lib, ds[|ds| - 1], target, total, guess, checksumOf)
  }

  /** The file ids sent to the probe task: those of the discoveries that need one, in order. */
  function ProbeIds(ds: seq<Discovered>): seq<nat>
    decreases |ds|
  {
    if ds == [] then [] else ProbeIds(ds[..|ds| - 1]) + (if ds[|ds| - 1].requiresProbe then [ds[|ds| - 1].fileId] else [])
  }

  /** The empty state the loop starts from. */
  function LoopStart(t: Tables): LoopState {
    LoopState(t, 0, 0, 0, {}, [], [], [])
  }

  /**
   * processed grows by one per discovery and ends at their number; the i-th
   * event reports i + 1 of `total`; matched + unmatched never exceeds
   * processed; every file needing a probe is sent once, in order; and each
   * item is announced at most once.
   */
  lemma {:induction false} ProcessedProps(t: Tables, lib: LibraryRecord, ds: seq<Discovered>, target: Option<nat>,
                                          guess: string -> GuessOutcome, checksumOf: string -> string)
    ensures var r := Processed(LoopStart(t), lib, ds, target, |ds|, guess, checksumOf);
            r.processed == |ds| && |r.events| == |ds|
            && (forall i :: 0 <= i < |ds| ==> r.events[i].processed == i + 1 && r.events[i].total == |ds|)
            && r.matched + r.unmatched <= r.processed
            && r.probes == ProbeIds(ds)
            && NoDuplicates(r.announced) && (forall x :: x in r.announced ==> x in r.mediaItemIds)
  {
    ProcessedPrefix(t, lib, ds, ds, target, guess, checksumOf);
  }

  lemma {:induction false} ProcessedPrefix(t: Tables, lib: LibraryRecord, all: seq<Discovered>, ds: seq<Discovered>, target: Option<nat>,
                                           guess: string -> GuessOutcome, checksumOf: string -> string)
    requires |ds| <= |all|
    ensures var r := Processed(LoopStart(t), lib, ds, target, |all|, guess, checksumOf);
            r.processed == |ds| && |r.events| == |ds|
            && (forall i :: 0 <= i < |ds| ==> r.events[i].processed == i + 1 && r.events[i].total == |all|)
            && r.matched + r.unmatched <= r.processed
            && r.probes == ProbeIds(ds)
            && NoDuplicates(r.announced) && (forall x :: x in r.announced ==> x in r.mediaItemIds)
    decreases |ds|
  {
    if ds != [] {
      var n := |ds| - 1;
      var s := Processed(LoopStart(t), lib, ds[..n], target, |all|, guess, checksumOf);
      ProcessedPrefix(t, lib, all, ds[..n], target, guess, checksumOf);
      var idf := IdentifiedFile(s.tables, lib, ds[n].fileId, target, guess, checksumOf);
      AnnouncedOnce(s.mediaItemIds, s.announced, Candidates(idf.result), idf.tables.items);
      LoopStepIsAdvanced(s, lib, ds[n], target, |all|, guess, checksumOf);
      var r := LoopStep(s, lib, ds[n], target, |all|, guess, checksumOf);
      assert r == Advanced(s, idf, ds[n], |all|);
      assert Processed(LoopStart(t), lib, ds, target, |all|, guess, checksumOf) == r;
      assert ProbeIds(ds) == ProbeIds(ds[..n]) + (if ds[n].requiresProbe then [ds[n].fileId] else []);
      assert NoDuplicates(r.announced) && (forall x :: x in r.announced ==> x in r.mediaItemIds);
      forall i | 0 <= i < |ds|
        ensures r.events[i].processed == i + 1 && r.events[i].total == |all|
      {
        if i < n {
          assert r.events[i] == s.events[i];
        }
      }
    }
  }

  /** `_identify_media_file` on the database. */
  method IdentifyMediaFile(db: Database, lib: LibraryRecord, fileId: nat, target: Option<nat>,
                           guess: string -> GuessOutcome, checksumOf: string -> string) returns (r: Identification)
    modifies db
    ensures IdentifiedFile(old(db.State()), lib, fileId, target, guess, checksumOf) == Identified(db.State(), r)
  {
    var fi := FirstWhere(db.files, FileQuery(fileId, lib.id));
    if fi.None? {
      return Identification(None, None, 0, 0, None);
    }
    r := IdentifyFound(db, lib, fi.value, target, guess, checksumOf);
  }

  method IdentifyFound(db: Database, lib: LibraryRecord, fi: nat, target: Option<nat>,
                       guess: string -> GuessOutcome, checksumOf: string -> string) returns (r: Identification)
    requires fi < |db.files|
    modifies db
    ensures IdentifiedFound(old(db.State()), lib, fi, target, guess, checksumOf) == Identified(db.State(), r)
  {
    var file := db.files[fi];
    var classification := ClassifyMediaFile(file.fileName, guess(file.fileName));
    if lib.libraryType == MoviesLibrary {
      classification := classification.(detectedType := Movie);
    } else if lib.libraryType == ShowsLibrary {
      if classification.detectedType == Movie {
        classification := classification.(detectedType := Show);
      }
    }
    assert classification == ClassifiedFor(lib, file.fileName, guess(file.fileName));
    var targetIndex: Option<nat> := None;
    if TruthyInt(target) {
      targetIndex := FirstWhere(db.items, ItemInLibrary(target.value, lib.id));
    }
    var res := Resolve(db.items, db.nextItemId, lib.id, classification, targetIndex);
    var k := res.index;
    var item := res.items[k];
    db.items, db.nextItemId := res.items, res.nextId;
    var syncParent := MarkItems(db, k, classification.detectedType);
    file := file.(mediaItemId := Some(item.id));
    if file.checksum == "" {
      file := file.(checksum := checksumOf(file.absolutePath));
    }
    db.files := db.files[fi := file];
    var other := classification.detectedType == OtherType;
    r := Identification(Some(item.id), item.parentId, if other then 0 else 1, if other then 1 else 0, syncParent);
  }

  /** The status writes of `_identify_media_file` on the item at `k` (and its parent). */
  method MarkItems(db: Database, k: nat, t: ItemType) returns (syncParent: Option<nat>)
    requires k < |db.items|
    modifies db
    ensures (db.items, syncParent) == MarkedItems(old(db.items), k, t)
    ensures db.nextItemId == old(db.nextItemId) && db.files == old(db.files) && db.nextFileId == old(db.nextFileId)
  {
    syncParent := None;
    var item := db.items[k];
    if t == OtherType {
      if item.status != ItemFailed {
        db.items := db.items[k := item.(status := ItemFailed)];
      } else {
        assert db.items[k := item.(status := ItemFailed)] == db.items;
      }
      return;
    }
    if item.status != Matched {
      db.items := db.items[k := item.(status := Matched)];
    } else {
      assert db.items[k := item.(status := Matched)] == db.items;
    }
    if t == Episode && item.parentId.Some? && item.parentId.value != 0 {
      var p := ItemIndex(db.items, item.parentId.value);
      if p.Some? {
        var parent := db.items[p.value];
        if parent.status != Matched {
          db.items := db.items[p.value := parent.(status := Matched)];
        } else {
          assert db.items[p.value := parent.(status := Matched)] == db.items;
        }
        if parent.metadataLastSyncedAt.None? || parent.posterUrl == "" {
          syncParent := Some(parent.id);
        }
      }
    }
  }

  /** The inner loop over a result's candidate ids. */
  method AnnounceCandidates(db: Database, ids: set<nat>, announced: seq<nat>, candidates: seq<nat>)
    returns (ids': set<nat>, announced': seq<nat>)
    ensures (ids', announced') == Announced(ids, announced, candidates, db.items)
  {
    ids', announced' := ids, announced;
    var c := 0;
    while c < |candidates|
      invariant 0 <= c <= |candidates|
      invariant Announced(ids', announced', candidates[c..], db.items) == Announced(ids, announced, candidates, db.items)
    {
      assert candidates[c..][0] == candidates[c] && candidates[c..][1..] == candidates[c + 1..];
      var id := candidates[c];
      var isNew := id !in ids';
      ghost var step := Announced(ids' + {id}, announced' + (if isNew && ItemIndex(db.items, id).Some? then [id] else []),
                                  candidates[c + 1..], db.items);
      assert Announced(ids', announced', candidates[c..], db.items) == step;
      ids' := ids' + {id};
      if isNew && ItemIndex(db.items, id).Some? {
        announced' := announced' + [id];
      } else {
        assert announced' + [] == announced';
      }
      c := c + 1;
    }
  }

  /** The `i`-th pass of the scan loop: identify, announce, queue the probe, record progress. */
  method ProcessOne(db: Database, scan: LibraryScan, lib: LibraryRecord, ds: seq<Discovered>, i: nat, target: Option<nat>,
                    guess: string -> GuessOutcome, checksumOf: string -> string, now: int,
                    ghost t0: Tables, ghost scan0: ScanRecord, s: LoopState)
    returns (r: LoopState)
    requires i < |ds|
    requires s == Processed(LoopStart(t0), lib, ds[..i], target, |ds|, guess, checksumOf) && s.tables == db.State()
    requires scan.Record() == ProgressRow(scan0, i, s.matched, s.unmatched, now)
    modifies db, scan
    ensures r == Processed(LoopStart(t0), lib, ds[..i + 1], target, |ds|, guess, checksumOf) && r.tables == db.State()
    ensures scan.Record() == ProgressRow(scan0, i + 1, r.matched, r.unmatched, now)
  {
    ProcessedCount(t0, lib, ds[..i], target, |ds|, guess, checksumOf);
    ProcessedSnoc(LoopStart(t0), lib, ds, i, target, |ds|, guess, checksumOf);
    r := IdentifyStep(db, lib, ds[i], target, |ds|, guess, checksumOf, s);
    scan.RecordProgress(Some(r.processed), Some(r.matched), Some(r.unmatched), None, now);
    ProgressRowStep(scan0, i, s.matched, s.unmatched, r.matched, r.unmatched, now);
  }

  /** The part of the pass that touches the tables and the loop's variables. */
  method IdentifyStep(db: Database, lib: LibraryRecord, d: Discovered, target: Option<nat>, total: nat,
                      guess: string -> GuessOutcome, checksumOf: string -> string, s: LoopState)
    returns (r: LoopState)
    requires s.tables == db.State()
    modifies db
    ensures r == LoopStep(s, lib, d, target, total, guess, checksumOf) && r.tables == db.State()
  {
    ghost var idf := IdentifiedFile(s.tables, lib, d.fileId, target, guess, checksumOf);
    var result := IdentifyMediaFile(db, lib, d.fileId, target, guess, checksumOf);
    assert idf == Identified(db.State(), result);
    var matched := s.matched + result.matched;
    var unmatched := s.unmatched + result.unmatched;
    var ids, announced := AnnounceCandidates(db, s.mediaItemIds, s.announced, Candidates(result));
    var probes := s.probes;
    if d.requiresProbe {
      probes := probes + [d.fileId];
    }
    var processed := s.processed + 1;
    r := LoopState(db.State(), processed, matched, unmatched, ids, announced, probes,
                   s.events + [ProgressEvent(processed, total, matched, unmatched)]);
    assert idf.result == result && idf.tables == db.State();
    ghost var a := Announced(s.mediaItemIds, s.announced, Candidates(idf.result), idf.tables.items);
    assert ids == a.0 && announced == a.1;
    assert r == Advanced(s, idf, d, total);
    LoopStepIsAdvanced(s, lib, d, target, total, guess, checksumOf);
  }

  /** The loop of `scan_library_task` over the discoveries, writing a progress row after each. */
  method ProcessDiscoveries(db: Database, scan: LibraryScan, lib: LibraryRecord, ds: seq<Discovered>, target: Option<nat>,
                            guess: string -> GuessOutcome, checksumOf: string -> string, now: int)
    returns (r: LoopState)
    modifies db, scan
    ensures r == Processed(LoopStart(old(db.State())), lib, ds, target, |ds|, guess, checksumOf)
    ensures r.tables == db.State()
    ensures scan.Record() == ProgressRow(old(scan.Record()), |ds|, r.matched, r.unmatched, now)
  {
    ghost var t0 := db.State();
    ghost var scan0 := scan.Record();
    r := LoopStart(db.State());
    var i := 0;
    while i < |ds|
      invariant 0 <= i <= |ds|
      invariant r == Processed(LoopStart(t0), lib, ds[..i], target, |ds|, guess, checksumOf) && r.tables == db.State()
      invariant scan.Record() == ProgressRow(scan0, i, r.matched, r.unmatched, now)
    {
      r := ProcessOne(db, scan, lib, ds, i, target, guess, checksumOf, now, t0, scan0, r);
      i := i + 1;
    }
    assert ds[..i] == ds;
  }

  /** The fold over one more discovery is one more loop step. */
  lemma ProcessedSnoc(s: LoopState, lib: LibraryRecord, ds: seq<Discovered>, i: nat, target: Option<nat>, total: nat,
                      guess: string -> GuessOutcome, checksumOf: string -> string)
    requires i < |ds|
    ensures Processed(s, lib, ds[..i + 1], target, total, guess, checksumOf)
            == LoopStep(Processed(s, lib, ds[..i], target, total, guess, checksumOf), lib, ds[i], target, total, guess, checksumOf)
  {
    assert ds[..i + 1][..i] == ds[..i];
  }

  /** The scan row after `i` passes of the loop. */
  function ProgressRow(s: ScanRecord, i: nat, m: nat, u: nat, now: int): ScanRecord {
    if i == 0 then s else RecordedProgress(s, Some(i), Some(m), Some(u), None, now)
  }

  /** A further progress write overrides the previous one. */
  lemma ProgressRowStep(s: ScanRecord, i: nat, m0: nat, u0: nat, m: nat, u: nat, now: int)
    ensures RecordedProgress(ProgressRow(s, i, m0, u0, now), Some(i + 1), Some(m), Some(u), None, now)
            == ProgressRow(s, i + 1, m, u, now)
  {
  }

  lemma {:induction false} ProcessedCount(t: Tables, lib: LibraryRecord, ds: seq<Discovered>, target: Option<nat>, total: nat,
                                          guess: string -> GuessOutcome, checksumOf: string -> string)
    ensures Processed(LoopStart(t), lib, ds, target, total, guess, checksumOf).processed == |ds|
    decreases |ds|
  {
    if ds != [] {
      ProcessedCount(t, lib, ds[..|ds| - 1], target, total, guess, checksumOf);
    }
  }

  // ---------------------------------------------------------------------------
  // scan_library_task

  /** The completed scan's summary line. */
  function ScanSummary(total: nat, newFiles: nat, updated: nat, removed: nat, matched: nat, unmatched: nat): string {
    "Processed " + NatToString(total) + " files; new=" + NatToString(newFiles) + ", updated=" + NatToString(updated)
    + ", removed=" + NatToString(removed) + ", matched=" + NatToString(matched) + ", unmatched=" + NatToString(unmatched)
  }

  /** The items the scan sends to `sync_metadata_task`: touched ones never synced or without a poster. */
  function MetadataQueue(items: seq<Item>, ids: set<nat>): (r: set<nat>)
    ensures r <= ids
    ensures forall i :: 0 <= i < |items| && items[i].id in ids && (items[i].metadataLastSyncedAt.None? || items[i].posterUrl == "")
              ==> items[i].id in r
    ensures forall x :: x in r ==>
              exists i :: 0 <= i < |items| && items[i].id == x && x in ids
                          && (items[i].metadataLastSyncedAt.None? || items[i].posterUrl == "")
  {
    set i | 0 <= i < |items| && items[i].id in ids && (items[i].metadataLastSyncedAt.None? || items[i].posterUrl == "") :: items[i].id
  }

  /** What the scan's walk finds, starting from the tables before the scan. */
  function ScanWalk(t: Tables, lib: LibraryRecord, forceFull: bool, rescanItemId: Option<nat>,
                    locs: seq<Location>, listings: seq<Listing>, now: int): WalkState
    requires |locs| == |listings|
  {
    Walk(ScanStart(t, lib.id, rescanItemId), lib.id, lib.name, locs, listings, forceFull || rescanItemId.Some?,
         ScanTarget(t.items, lib.id, rescanItemId), now)
  }

  /** The tables after discovery and `mark_missing_files`: the walk's file rows, the unseen ones marked missing. */
  function StartedTables(t: Tables, w: WalkState, lib: nat, now: int): Tables {
    t.(files := MarkMissing(w.files, lib, w.seen, now), nextFileId := w.nextFileId)
  }

  /**
   * The success path of `scan_library_task`: mark the scan running, walk
   * the locations, mark missing files, identify every discovery, queue the
   * metadata syncs and finalize. `taskId` is the worker's request id.
   */
  method RunScan(scan: LibraryScan, library: Library, db: Database, forceFull: bool, rescanItemId: Option<nat>,
                 locs: seq<Location>, listings: seq<Listing>, guess: string -> GuessOutcome, checksumOf: string -> string,
                 taskId: Option<string>, now: int)
    returns (discovered: seq<Discovered>, r: LoopState, metadataQueue: set<nat>, summary: string)
    requires |locs| == |listings|
    modifies scan, library, db
    ensures r.processed == |discovered| && r.matched + r.unmatched <= |discovered|
    ensures scan.Record().status == Completed && scan.Record().processedFiles == scan.Record().totalFiles
    ensures scan.Record().matchedItems == r.matched && scan.Record().unmatchedFiles == r.unmatched
    ensures scan.Record().startedAt == Some(now) && scan.Record().finishedAt == Some(now)
    ensures Truthy(taskId) ==> scan.Record().taskId == taskId
    ensures scan.Record().summary == summary && summary == ScanSummary(scan.Record().totalFiles, scan.Record().newFiles,
              scan.Record().updatedFiles, scan.Record().removedFiles, r.matched, r.unmatched)
    ensures var t0, lib0 := old(db.State()), old(library.Record());
            var w := ScanWalk(t0, lib0, forceFull, rescanItemId, locs, listings, now);
            discovered == w.discovered
            && r == Processed(LoopStart(StartedTables(t0, w, lib0.id, now)), lib0, discovered,
                              ScanTarget(t0.items, lib0.id, rescanItemId), |discovered|, guess, checksumOf)
    ensures metadataQueue == MetadataQueue(db.items, r.mediaItemIds)
    ensures library.Record() == old(library.Record()).(lastScanAt := Some(now), lastSuccessfulScanAt := Some(now))
  {
    var scanner;
    scanner, discovered := StartScan(scan, library, db, forceFull, rescanItemId, locs, listings, taskId, now);
    r, metadataQueue, summary := CompleteScan(scanner, discovered, guess, checksumOf, now);
  }

  /** The scan's first half: running, discovery, the zeroed progress row, missing files. */
  method StartScan(scan: LibraryScan, library: Library, db: Database, forceFull: bool, rescanItemId: Option<nat>,
                   locs: seq<Location>, listings: seq<Listing>, taskId: Option<string>, now: int)
    returns (scanner: LibraryScanner, discovered: seq<Discovered>)
    requires |locs| == |listings|
    modifies scan, db
    ensures fresh(scanner)
    ensures scanner.scan == scan && scanner.db == db && scanner.library == library && scanner.now == now
    ensures scanner.stats.matched == 0 && scanner.stats.unmatched == 0
    ensures StartedRow(scan.Record(), taskId, now)
    ensures scanner.targetItemId == ScanTarget(old(db.items), library.id, rescanItemId)
    ensures var w := ScanWalk(old(db.State()), library.Record(), forceFull, rescanItemId, locs, listings, now);
            discovered == w.discovered && db.State() == StartedTables(old(db.State()), w, library.id, now)
  {
    scan.MarkRunning(taskId, now);
    assert StartedRow(scan.Record(), taskId, now);
    scanner := new LibraryScanner(library, scan, db, forceFull, rescanItemId, now);
    ghost var w := ScanWalk(old(db.State()), library.Record(), forceFull, rescanItemId, locs, listings, now);
    assert w == Walk(scanner.Walked(), library.id, library.name, locs, listings, scanner.forceFull, scanner.targetItemId, now);
    discovered := DiscoverMedia(scanner, locs, listings);
    assert discovered == w.discovered && scanner.seenPaths == w.seen;
    scan.RecordProgress(Some(0), Some(0), Some(0), None, now);
    assert StartedRow(scan.Record(), taskId, now);
    var removed := scanner.MarkMissingFiles();
  }

  /**
   * `_discover_media`: runs `discover_files`. The walk sees exactly the
   * accepted paths, leaves the identification counters alone and does not
   * touch the scan's status, start time or task id.
   */
  method DiscoverMedia(scanner: LibraryScanner, locs: seq<Location>, listings: seq<Listing>)
    returns (discovered: seq<Discovered>)
    requires |locs| == |listings|
    modifies scanner, scanner.db, scanner.scan
    ensures var w := Walk(old(scanner.Walked()), scanner.library.id, scanner.library.name, locs, listings,
                          scanner.forceFull, scanner.targetItemId, scanner.now);
            discovered == w.discovered && scanner.db.files == w.files && scanner.db.nextFileId == w.nextFileId
            && scanner.seenPaths == w.seen && scanner.db.items == old(scanner.db.items)
            && scanner.db.nextItemId == old(scanner.db.nextItemId)
    ensures locs != [] ==> scanner.seenPaths == old(scanner.seenPaths) + AcceptedPaths(listings)
    ensures scanner.stats.matched == old(scanner.stats.matched) && scanner.stats.unmatched == old(scanner.stats.unmatched)
    ensures var s, s0 := scanner.scan.Record(), old(scanner.scan.Record());
            s.status == s0.status && s.startedAt == s0.startedAt && s.taskId == s0.taskId
  {
    ghost var w0 := scanner.Walked();
    discovered := scanner.DiscoverFiles(locs, listings);
    if locs != [] {
      WalkSeen(w0, scanner.library.id, scanner.library.name, locs, listings, scanner.forceFull, scanner.targetItemId, scanner.now);
    }
  }

  /** The scan row after `mark_running(task_id)`: running, started now, with the task id when one was given. */
  predicate StartedRow(s: ScanRecord, taskId: Option<string>, now: int) {
    s.status == Running && s.startedAt == Some(now) && (Truthy(taskId) ==> s.taskId == taskId)
  }

  /** The scan's second half: the identification loop, the metadata queue and `finalize`. */
  method CompleteScan(scanner: LibraryScanner, discovered: seq<Discovered>, guess: string -> GuessOutcome,
                      checksumOf: string -> string, now: int)
    returns (r: LoopState, metadataQueue: set<nat>, summary: string)
    requires scanner.stats.matched == 0 && scanner.stats.unmatched == 0
    modifies scanner, scanner.scan, scanner.library, scanner.db
    ensures r.processed == |discovered| && r.matched + r.unmatched <= |discovered|
    ensures var s := scanner.scan.Record();
            s.status == Completed && s.processedFiles == s.totalFiles
            && s.matchedItems == r.matched && s.unmatchedFiles == r.unmatched
            && s.startedAt == old(scanner.scan.Record()).startedAt && s.taskId == old(scanner.scan.Record()).taskId
            && s.finishedAt == Some(now) && s.summary == summary
            && summary == ScanSummary(s.totalFiles, s.newFiles, s.updatedFiles, s.removedFiles, r.matched, r.unmatched)
    ensures r == Processed(LoopStart(old(scanner.db.State())), old(scanner.library.Record()), discovered,
                           scanner.targetItemId, |discovered|, guess, checksumOf)
    ensures metadataQueue == MetadataQueue(scanner.db.items, r.mediaItemIds)
    ensures scanner.library.Record() == old(scanner.library.Record()).(lastScanAt := Some(now), lastSuccessfulScanAt := Some(now))
  {
    var scan, db := scanner.scan, scanner.db;
    ghost var tables := db.State();
    r := ProcessDiscoveries(db, scan, scanner.library.Record(), discovered, scanner.targetItemId, guess, checksumOf, now);
    ProcessedProps(tables, scanner.library.Record(), discovered, scanner.targetItemId, guess, checksumOf);
    metadataQueue := MetadataQueue(db.items, r.mediaItemIds);
    summary := ScanSummary(scan.totalFiles, scan.newFiles, scan.updatedFiles, scan.removedFiles, r.matched, r.unmatched);
    scanner.Finalize(r.matched, r.unmatched, Some(summary), now);
  }

  /** The failure path: record the counters reached and the error, then mark the scan failed. */
  method FailScan(scan: LibraryScan, processed: nat, matched: nat, unmatched: nat, message: string, now: int)
    modifies scan
    ensures scan.Record() == MarkedFailed(RecordedProgress(old(scan.Record()), Some(processed), Some(matched), Some(unmatched), Some(message), now), message, now)
    ensures scan.Record().status == Failed && scan.Record().processedFiles == processed
    ensures scan.Record().matchedItems == matched && scan.Record().unmatchedFiles == unmatched
  {
    scan.RecordProgress(Some(processed), Some(matched), Some(unmatched), Some(message), now);
    scan.MarkFailed(message, now);
  }
}
