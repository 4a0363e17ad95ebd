/**
 * The request handlers of apps/media_library/api_views.py that carry logic of
 * their own: the library hooks that enqueue scans, removing a queued scan,
 * the partial-update field check, the stream file choice, the watch-state
 * actions on items and shows, and the resume payload. Tables are values; a
 * handler returns the tables it leaves behind.
 */
module ApiViews {
  import opened Wrappers
  import opened Text
  import opened Models
  import opened Catalog
  import opened Serializers
  import Tasks

  // ---------------------------------------------------------------------------
  // Filters over rows

  /** The rows satisfying `keep`, in table order: a queryset's `filter`. */
  function Where<T(==,!new)>(rows: seq<T>, keep: T -> bool): (r: seq<T>)
    ensures |r| <= |rows|
    ensures forall x :: x in r <==> x in rows && keep(x)
    decreases |rows|
  {
    if rows == [] then []
    else
      var n := |rows| - 1;
      assert rows == rows[..n] + [rows[n]];
      Where(rows[..n], keep) + (if keep(rows[n]) then [rows[n]] else [])
  }

  /** A `delete()` splits the table: the deleted rows and the kept ones together are all of it. */
  lemma {:induction false} WherePartition<T(!new)>(rows: seq<T>, keep: T -> bool, drop: T -> bool)
    requires forall x :: drop(x) == !keep(x)
    ensures |Where(rows, keep)| + |Where(rows, drop)| == |rows|
    decreases |rows|
  {
    if rows != [] {
      WherePartition(rows[..|rows| - 1], keep, drop);
    }
  }

  // ---------------------------------------------------------------------------
  // LibraryViewSet

  /** `perform_create`: a library created with auto-scan enabled is scanned at once. */
  method PerformCreate(table: Tasks.ScanTable, lib: LibraryRecord, scanId: string, taskId: string, now: int)
    returns (request: Option<Tasks.ScanRequest>)
    modifies table
    ensures lib.autoScanEnabled ==>
              Tasks.Enqueued(old(table.scans), lib.id, scanId, ScanExtra(false, None), taskId, now)
                == Tasks.Dispatch(table.scans, request)
    ensures !lib.autoScanEnabled ==> table.scans == old(table.scans) && request.None?
  {
    request := None;
    if lib.autoScanEnabled {
      request := table.EnqueueLibraryScan(lib.id, scanId, false, None, taskId, now);
    }
  }

  /** `perform_update`: an update enqueues a scan only when auto-scan is on and the payload asks for one. */
  method PerformUpdate(table: Tasks.ScanTable, lib: LibraryRecord, triggerScan: bool, scanId: string, taskId: string, now: int)
    returns (request: Option<Tasks.ScanRequest>)
    modifies table
    ensures lib.autoScanEnabled && triggerScan ==>
              Tasks.Enqueued(old(table.scans), lib.id, scanId, ScanExtra(false, None), taskId, now)
                == Tasks.Dispatch(table.scans, request)
    ensures !(lib.autoScanEnabled && triggerScan) ==> table.scans == old(table.scans) && request.None?
  {
    request := None;
    if lib.autoScanEnabled && triggerScan {
      request := table.EnqueueLibraryScan(lib.id, scanId, false, None, taskId, now);
    }
  }

  /** The `scan` action: always enqueues, full or not as the payload says. */
  method ScanAction(table: Tasks.ScanTable, lib: LibraryRecord, full: bool, scanId: string, taskId: string, now: int)
    returns (request: Option<Tasks.ScanRequest>)
    modifies table
    ensures Tasks.Enqueued(old(table.scans), lib.id, scanId, ScanExtra(full, None), taskId, now)
              == Tasks.Dispatch(table.scans, request)
  {
    request := table.EnqueueLibraryScan(lib.id, scanId, full, None, taskId, now);
  }

  /** `perform_destroy`: the library's items and files are deleted with it. */
  function DestroyedLibrary(t: Tables, lib: nat): (r: Tables)
    ensures forall x :: x in r.items <==> x in t.items && x.libraryId != lib
    ensures forall f :: f in r.files <==> f in t.files && f.libraryId != lib
    ensures r.nextItemId == t.nextItemId && r.nextFileId == t.nextFileId
  {
    Tables(Where(t.items, (x: Item) => x.libraryId != lib), t.nextItemId,
           Where(t.files, (f: MediaFileRecord) => f.libraryId != lib), t.nextFileId)
  }

  // ---------------------------------------------------------------------------
  // LibraryScanViewSet.destroy

  datatype RemovalOutcome = ScanNotFound | OnlyPendingRemovable | RemovedScan(request: Option<Tasks.ScanRequest>)

  datatype Removal = Removal(outcome: RemovalOutcome, scans: seq<ScanRecord>)

  function ScanWithId(scanId: string): ScanRecord -> bool {
    (s: ScanRecord) => s.id == scanId
  }

  /** The table without row `k`. */
  function Without(scans: seq<ScanRecord>, k: nat): (r: seq<ScanRecord>)
    requires k < |scans|
    ensures |r| == |scans| - 1
    ensures forall i :: 0 <= i < k ==> r[i] == scans[i]
    ensures forall i :: k <= i < |r| ==> r[i] == scans[i + 1]
  {
    scans[..k] + scans[k + 1..]
  }

  /**
   * `destroy`: a missing scan is a 404 and a scan that is not pending is
   * refused; a pending one is deleted and the library's queue moves on.
   */
  function RemovedFromQueue(scans: seq<ScanRecord>, scanId: string, taskId: string, now: int): (r: Removal)
    ensures r.outcome.ScanNotFound? <==> forall i :: 0 <= i < |scans| ==> scans[i].id != scanId
    ensures !r.outcome.RemovedScan? ==> r.scans == scans
    ensures r.outcome.RemovedScan? ==> |r.scans| == |scans| - 1
  {
    match FirstWhere(scans, ScanWithId(scanId))
    case None => Removal(ScanNotFound, scans)
    case Some(k) =>
      if scans[k].status != Pending then Removal(OnlyPendingRemovable, scans)
      else
        var d := Tasks.StartedNext(Without(scans, k), scans[k].libraryId, taskId, now);
        Removal(RemovedScan(d.request), d.scans)
  }

  predicate ScanIdsUnique(scans: seq<ScanRecord>) {
    forall i, j :: 0 <= i < |scans| && 0 <= j < |scans| && i != j ==> scans[i].id != scans[j].id
  }

  /** Only a pending scan is removed; a scan in any other state is refused and the table is untouched. */
  lemma RemovalOnlyPending(scans: seq<ScanRecord>, scanId: string, taskId: string, now: int)
    ensures var r := RemovedFromQueue(scans, scanId, taskId, now);
            r.outcome.OnlyPendingRemovable? <==>
              exists k :: 0 <= k < |scans| && scans[k].id == scanId && scans[k].status != Pending
                && forall j :: 0 <= j < k ==> scans[j].id != scanId
    ensures var r := RemovedFromQueue(scans, scanId, taskId, now);
            r.outcome.RemovedScan? ==>
              (exists k :: 0 <= k < |scans| && scans[k].id == scanId && scans[k].status == Pending)
  {
    var k := FirstWhere(scans, ScanWithId(scanId));
    if k.Some? {
      forall k' | 0 <= k' < |scans| && scans[k'].id == scanId && forall j :: 0 <= j < k' ==> scans[j].id != scanId
        ensures k' == k.value
      {
        assert !(k' < k.value) && !(k.value < k');
      }
    }
  }

  /** With distinct scan ids, the removed scan is gone. */
  lemma RemovalDeletesScan(scans: seq<ScanRecord>, scanId: string, taskId: string, now: int)
    requires ScanIdsUnique(scans)
    ensures var r := RemovedFromQueue(scans, scanId, taskId, now);
            r.outcome.RemovedScan? ==> forall i :: 0 <= i < |r.scans| ==> r.scans[i].id != scanId
  {
    var r := RemovedFromQueue(scans, scanId, taskId, now);
    var k := FirstWhere(scans, ScanWithId(scanId));
    if r.outcome.RemovedScan? {
      var rest := Without(scans, k.value);
      var d := Tasks.StartedNext(rest, scans[k.value].libraryId, taskId, now);
      assert forall i :: 0 <= i < |rest| ==> rest[i].id != scanId;
      StartedNextKeepsIds(rest, scans[k.value].libraryId, taskId, now);
    }
  }

  /** The dispatcher changes no scan's id. */
  lemma StartedNextKeepsIds(scans: seq<ScanRecord>, lib: nat, taskId: string, now: int)
    ensures var d := Tasks.StartedNext(scans, lib, taskId, now);
            forall i :: 0 <= i < |scans| ==> d.scans[i].id == scans[i].id
  {
  }

  /** Removing a row keeps at most one scan of any library in flight. */
  lemma WithoutKeepsOneInFlight(scans: seq<ScanRecord>, k: nat, lib: nat)
    requires k < |scans| && Tasks.AtMostOneInFlight(scans, lib)
    ensures Tasks.AtMostOneInFlight(Without(scans, k), lib)
  {
    var r := Without(scans, k);
    forall i, j | 0 <= i < |r| && 0 <= j < |r| && Tasks.InFlight(r[i], lib) && Tasks.InFlight(r[j], lib)
      ensures i == j
    {
      var i' := if i < k then i else i + 1;
      var j' := if j < k then j else j + 1;
      assert r[i] == scans[i'] && r[j] == scans[j'];
    }
  }

  /** Removing a queued scan keeps the queue's invariant for every library. */
  lemma RemovalKeepsOneInFlight(scans: seq<ScanRecord>, scanId: string, taskId: string, now: int, lib: nat)
    requires Tasks.AtMostOneInFlight(scans, lib)
    ensures Tasks.AtMostOneInFlight(RemovedFromQueue(scans, scanId, taskId, now).scans, lib)
  {
    var k := FirstWhere(scans, ScanWithId(scanId));
    if k.Some? && scans[k.value].status == Pending {
      WithoutKeepsOneInFlight(scans, k.value, lib);
      Tasks.StartedNextKeepsOneInFlight(Without(scans, k.value), scans[k.value].libraryId, lib, taskId, now);
    }
  }

  /**
   * Removing the scan that was handed to a worker but had not started frees
   * the library: when another scan waits, the next one is dispatched.
   */
  lemma RemovalHandsOnQueue(scans: seq<ScanRecord>, scanId: string, taskId: string, now: int)
    requires ScanIdsUnique(scans)
    requires exists k :: 0 <= k < |scans| && scans[k].id == scanId && scans[k].status == Pending && scans[k].taskId.Some?
    requires forall k :: 0 <= k < |scans| && scans[k].id == scanId ==>
               Tasks.AtMostOneInFlight(scans, scans[k].libraryId)
               && exists w :: 0 <= w < |scans| && Tasks.Waiting(scans[w], scans[k].libraryId)
    ensures var r := RemovedFromQueue(scans, scanId, taskId, now);
            r.outcome.RemovedScan? && r.outcome.request.Some?
  {
    var k :| 0 <= k < |scans| && scans[k].id == scanId && scans[k].status == Pending && scans[k].taskId.Some?;
    var found := FirstWhere(scans, ScanWithId(scanId));
    assert found == Some(k);
    var lib := scans[k].libraryId;
    var rest := Without(scans, k);
    assert Tasks.InFlight(scans[k], lib);
    var w :| 0 <= w < |scans| && Tasks.Waiting(scans[w], lib);
    assert w != k;
    var w' := if w < k then w else w - 1;
    assert rest[w'] == scans[w];
    Tasks.StartedNextWhenIdle(rest, lib, taskId, now);
  }

  /** `LibraryScanViewSet.destroy` on the scan table. */
  method DestroyScan(table: Tasks.ScanTable, scanId: string, taskId: string, now: int) returns (outcome: RemovalOutcome)
    modifies table
    ensures RemovedFromQueue(old(table.scans), scanId, taskId, now) == Removal(outcome, table.scans)
  {
    var k := FirstWhere(table.scans, ScanWithId(scanId));
    if k.None? {
      return ScanNotFound;
    }
    if table.scans[k.value].status != Pending {
      return OnlyPendingRemovable;
    }
    var lib := table.scans[k.value].libraryId;
    table.scans := Without(table.scans, k.value);
    var request := table.StartNextScan(lib, taskId, now);
    outcome := RemovedScan(request);
  }

  // ---------------------------------------------------------------------------
  // MediaItemViewSet.partial_update

  /** The fields a client may change on a media item. */
  const UpdatableFields: set<string> :=
    {"title", "synopsis", "tagline", "genres", "cast", "crew", "tags", "poster_url",
     "backdrop_url", "rating", "runtime_ms", "metadata", "status"}

  datatype UpdateCheck = UpdateAllowed | UpdateRejected(detail: string)

  /** The payload keys outside the allowed set, sorted and without repeats. */
  function UnknownFields(keys: seq<string>): (r: seq<string>)
    ensures StrictlySorted(r)
    ensures forall k :: k in r <==> k in keys && k !in UpdatableFields
  {
    var unknown := Where(keys, (k: string) => k !in UpdatableFields);
    var sorted := Sort(unknown);
    assert forall k :: k in sorted <==> k in multiset(sorted);
    assert forall k :: k in unknown <==> k in multiset(unknown);
    Dedup(sorted)
  }

  /** `partial_update`: any unknown key rejects the whole request, naming every unknown key. */
  function PartialUpdateCheck(keys: seq<string>): (r: UpdateCheck)
    ensures r.UpdateAllowed? <==> forall k :: k in keys ==> k in UpdatableFields
    ensures r.UpdateRejected? ==> r.detail == "Cannot update fields: " + Join(UnknownFields(keys), ", ")
  {
    var unknown := UnknownFields(keys);
    if unknown == [] then UpdateAllowed
    else
      assert unknown[0] in keys;
      UpdateRejected("Cannot update fields: " + Join(unknown, ", "))
  }

  /** Only the set of keys matters: their order and repeats in the payload do not change the answer. */
  lemma PartialUpdateCheckOrderFree(a: seq<string>, b: seq<string>)
    requires forall k :: k in a <==> k in b
    ensures PartialUpdateCheck(a) == PartialUpdateCheck(b)
  {
    var ua := UnknownFields(a);
    var ub := UnknownFields(b);
    StrictlySortedUnique(ua, ub);
  }

  /** Two strictly sorted sequences with the same members are equal. */
  lemma {:induction false} StrictlySortedUnique(a: seq<string>, b: seq<string>)
    requires StrictlySorted(a) && StrictlySorted(b)
    requires forall x :: x in a <==> x in b
    ensures a == b
    decreases |a|
  {
    if a != [] {
      assert a[0] in a;
    }
    if b != [] {
      assert b[0] in b;
    }
    if a != [] && b != [] {
      assert a[0] in b;
      assert b[0] in a;
      var i :| 0 <= i < |b| && b[i] == a[0];
      var j :| 0 <= j < |a| && a[j] == b[0];
      if i != 0 {
        assert StrLeq(b[0], b[i]) && b[0] != b[i];
        if j != 0 {
          assert StrLeq(a[0], a[j]) && a[0] != a[j];
          StrLeqAntisym(a[0], b[0]);
        }
      }
      assert a[0] == b[0];
      forall x
        ensures x in a[1..] <==> x in b[1..]
      {
        if x in a[1..] {
          var m :| 1 <= m < |a| && a[m] == x;
          assert x != a[0] && x in a && x in b;
          var q :| 0 <= q < |b| && b[q] == x;
          assert q != 0;
          assert b[1..][q - 1] == x;
        }
        if x in b[1..] {
          var m :| 1 <= m < |b| && b[m] == x;
          assert x != b[0] && x in b && x in a;
          var q :| 0 <= q < |a| && a[q] == x;
          assert q != 0;
          assert a[1..][q - 1] == x;
        }
      }
      StrictlySortedUnique(a[1..], b[1..]);
    }
  }

  // ---------------------------------------------------------------------------
  // MediaItemViewSet.stream: which file is streamed

  datatype StreamChoice = RequestedFileNotFound | NoFilesAvailable | StreamFile(fileId: nat)

  predicate FileOfItem(f: MediaFileRecord, itemId: nat) {
    f.mediaItemId == Some(itemId)
  }

  /** `files.order_by("id").first()`: the item's file with the lowest id. */
  function LowestFileId(files: seq<MediaFileRecord>, itemId: nat): (r: Option<nat>)
    ensures r.None? <==> forall i :: 0 <= i < |files| ==> !FileOfItem(files[i], itemId)
    ensures r.Some? ==> (exists i :: 0 <= i < |files| && FileOfItem(files[i], itemId) && files[i].id == r.value)
                        && forall i :: 0 <= i < |files| && FileOfItem(files[i], itemId) ==> r.value <= files[i].id
    decreases |files|
  {
    if files == [] then None
    else
      var n := |files| - 1;
      var rest := LowestFileId(files[..n], itemId);
      assert forall i :: 0 <= i < n ==> files[..n][i] == files[i];
      if !FileOfItem(files[n], itemId) then rest
      else if rest.Some? && rest.value <= files[n].id then rest
      else Some(files[n].id)
  }

  /**
   * The file `stream` serves: the requested one, which must belong to the
   * item, or with no request the item's lowest-numbered file.
   */
  function StreamFileChoice(files: seq<MediaFileRecord>, itemId: nat, requested: Option<nat>): (r: StreamChoice)
    ensures r.RequestedFileNotFound? <==>
              requested.Some? && forall i :: 0 <= i < |files| ==> !(files[i].id == requested.value && FileOfItem(files[i], itemId))
    ensures r.NoFilesAvailable? <==> requested.None? && forall i :: 0 <= i < |files| ==> !FileOfItem(files[i], itemId)
    ensures r.StreamFile? ==> exists i :: 0 <= i < |files| && files[i].id == r.fileId && FileOfItem(files[i], itemId)
    ensures r.StreamFile? && requested.Some? ==> r.fileId == requested.value
    ensures r.StreamFile? && requested.None? ==>
              forall i :: 0 <= i < |files| && FileOfItem(files[i], itemId) ==> r.fileId <= files[i].id
  {
    match requested
    case Some(id) =>
      var k := FirstWhere(files, (f: MediaFileRecord) => f.id == id && FileOfItem(f, itemId));
      if k.None? then RequestedFileNotFound else StreamFile(id)
    case None =>
      var low := LowestFileId(files, itemId);
      if low.None? then NoFilesAvailable else StreamFile(low.value)
  }

  // ---------------------------------------------------------------------------
  // Durations for the watch actions

  /** The durations of the item's files, in table order. */
  function FileDurations(files: seq<MediaFileRecord>, itemId: nat): (r: seq<Option<int>>)
    ensures forall d :: d in r ==> exists i :: 0 <= i < |files| && FileOfItem(files[i], itemId) && files[i].durationMs == d
    ensures forall i :: 0 <= i < |files| && FileOfItem(files[i], itemId) ==> files[i].durationMs in r
    decreases |files|
  {
    if files == [] then []
    else
      var n := |files| - 1;
      assert forall i :: 0 <= i < n ==> files[..n][i] == files[i];
      FileDurations(files[..n], itemId) + (if FileOfItem(files[n], itemId) then [files[n].durationMs] else [])
  }

  /** The longest known duration, if some duration is known. */
  function LongestKnown(ds: seq<Option<int>>): (r: Option<int>)
    ensures r.None? <==> forall i :: 0 <= i < |ds| ==> ds[i].None?
    ensures r.Some? ==> r in ds && forall i :: 0 <= i < |ds| && ds[i].Some? ==> ds[i].value <= r.value
    decreases |ds|
  {
    if ds == [] then None
    else
      var n := |ds| - 1;
      var rest := LongestKnown(ds[..n]);
      assert ds == ds[..n] + [ds[n]];
      if ds[n].None? then rest
      else if rest.Some? && rest.value >= ds[n].value then rest
      else ds[n]
  }

  /**
   * `order_by("-duration_ms").first()` as written, on PostgreSQL, where a
   * NULL sorts first in descending order: the primary file's duration is
   * unknown as soon as one file's duration is.
   */
  function PrimaryDurationAsWritten(ds: seq<Option<int>>): (r: Option<int>)
    ensures (exists i :: 0 <= i < |ds| && ds[i].None?) ==> r.None?
    ensures (forall i :: 0 <= i < |ds| ==> ds[i].Some?) ==> r == LongestKnown(ds)
  {
    if exists i :: 0 <= i < |ds| && ds[i].None? then None else LongestKnown(ds)
  }

  /** The duration `mark_watched` records: the runtime, else the file duration, else one second. */
  function WatchedDurationFrom(runtimeMs: Option<int>, fileDuration: Option<int>): (r: int)
    ensures r != 0
    ensures TruthyInt(runtimeMs) ==> r == runtimeMs.value
    ensures !TruthyInt(runtimeMs) && TruthyInt(fileDuration) ==> r == fileDuration.value
    ensures !TruthyInt(runtimeMs) && !TruthyInt(fileDuration) ==> r == 1000
  {
    if TruthyInt(runtimeMs) then runtimeMs.value
    else if TruthyInt(fileDuration) then fileDuration.value
    else 1000
  }

  /** As written: the file duration comes from the NULLS FIRST ordering. */
  function WatchedDurationAsWritten(runtimeMs: Option<int>, ds: seq<Option<int>>): int {
    WatchedDurationFrom(runtimeMs, PrimaryDurationAsWritten(ds))
  }

  /**
   * A 90-minute film that also has a file not yet probed is recorded as
   * watched with a duration of one second.
   */
  lemma UnprobedFileHidesDuration()
    ensures WatchedDurationAsWritten(None, [Some(5400000), None]) == 1000
    ensures WatchedDuration(None, [Some(5400000), None]) == 5400000
  {
    var ds: seq<Option<int>> := [Some(5400000), None];
    assert ds[1].None?;
    assert ds[0].Some?;
  }

  /** Corrected: the longest file whose duration is known. */
  function WatchedDuration(runtimeMs: Option<int>, ds: seq<Option<int>>): (r: int)
    ensures r != 0
  {
    WatchedDurationFrom(runtimeMs, LongestKnown(ds))
  }

  /** With no runtime, the recorded duration is the longest known file duration, whatever else the files hold. */
  lemma WatchedDurationUsesLongestFile(runtimeMs: Option<int>, ds: seq<Option<int>>)
    requires !TruthyInt(runtimeMs)
    requires forall i :: 0 <= i < |ds| ==> ds[i].None? || ds[i].value > 0
    ensures (exists i :: 0 <= i < |ds| && ds[i].Some?) ==>
              (Some(WatchedDuration(runtimeMs, ds)) in ds
               && forall i :: 0 <= i < |ds| && ds[i].Some? ==> ds[i].value <= WatchedDuration(runtimeMs, ds))
    ensures (forall i :: 0 <= i < |ds| ==> ds[i].None?) ==> WatchedDuration(runtimeMs, ds) == 1000
  {
    var l := LongestKnown(ds);
    if l.Some? {
      var i :| 0 <= i < |ds| && ds[i] == l;
    }
  }

  /** Non-negative durations give a positive recorded duration. */
  lemma WatchedDurationPositive(runtimeMs: Option<int>, ds: seq<Option<int>>)
    requires runtimeMs.Some? ==> runtimeMs.value >= 0
    requires forall i :: 0 <= i < |ds| ==> ds[i].None? || ds[i].value >= 0
    ensures WatchedDuration(runtimeMs, ds) > 0
  {
    var l := LongestKnown(ds);
    if l.Some? {
      var i :| 0 <= i < |ds| && ds[i] == l;
    }
  }

  /**
   * The corrected duration and the one the code records differ only for an
   * item with no runtime one of whose files has no duration yet.
   */
  lemma WatchedDurationAgreesWhenProbed(runtimeMs: Option<int>, ds: seq<Option<int>>)
    requires TruthyInt(runtimeMs) || forall i :: 0 <= i < |ds| ==> ds[i].Some?
    ensures WatchedDuration(runtimeMs, ds) == WatchedDurationAsWritten(runtimeMs, ds)
  {
  }

  /** The duration `mark_watched` and `mark_series_watched` record for one item, read as the corrected pick. */
  function ItemWatchedDuration(item: Item, files: seq<MediaFileRecord>): (r: int)
    ensures r != 0
  {
    WatchedDuration(item.runtimeMs, FileDurations(files, item.id))
  }

  // ---------------------------------------------------------------------------
  // Progress writes

  /** `update_progress` on the user's row for the item, when there is one. */
  function ProgressUpdated(t: ProgressTable, user: nat, item: nat, position: int, duration: Option<int>, now: int): ProgressTable {
    var k := FirstWhere(t.rows, ProgressQuery(user, item));
    if k.None? then t
    else
      var row := t.rows[k.value];
      ProgressTable(t.rows[k.value := row.(progress := UpdatedProgress(row.progress, position, duration, DefaultCompletion, now))], t.nextId)
  }

  /** A write to one user's row of one item leaves every other (user, item) lookup as it was. */
  lemma CreatedProgressOther(t: ProgressTable, user: nat, item: nat, position: Option<int>, duration: Option<int>,
                             completed: Option<bool>, now: int, u: nat, id: nat)
    requires u != user || id != item
    ensures ProgressOf(CreatedProgress(t, user, item, position, duration, completed, now).rows, u, id) == ProgressOf(t.rows, u, id)
  {
    var p := Progress(position.GetOr(0), duration.GetOr(0), completed.GetOr(false), now);
    var k := FirstWhere(t.rows, ProgressQuery(user, item));
    var r := CreatedProgress(t, user, item, position, duration, completed, now);
    if k.None? {
      FirstWhereAppend(t.rows, ProgressRow(t.nextId, user, item, p), ProgressQuery(u, id));
    } else {
      FirstWhereUpdate(t.rows, k.value, t.rows[k.value].(progress := p), ProgressQuery(u, id));
      var k' := FirstWhere(t.rows, ProgressQuery(u, id));
      if k'.Some? {
        assert k'.value != k.value;
      }
    }
  }

  lemma ProgressUpdatedOther(t: ProgressTable, user: nat, item: nat, position: int, duration: Option<int>, now: int, u: nat, id: nat)
    requires u != user || id != item
    ensures ProgressOf(ProgressUpdated(t, user, item, position, duration, now).rows, u, id) == ProgressOf(t.rows, u, id)
  {
    var k := FirstWhere(t.rows, ProgressQuery(user, item));
    if k.Some? {
      var row := t.rows[k.value];
      var x := row.(progress := UpdatedProgress(row.progress, position, duration, DefaultCompletion, now));
      FirstWhereUpdate(t.rows, k.value, x, ProgressQuery(u, id));
      var k' := FirstWhere(t.rows, ProgressQuery(u, id));
      if k'.Some? {
        assert k'.value != k.value;
      }
    }
  }

  /** The user's row after `update_progress`. */
  lemma ProgressUpdatedRow(t: ProgressTable, user: nat, item: nat, position: int, duration: Option<int>, now: int)
    requires ProgressOf(t.rows, user, item).Some?
    ensures var old_ := ProgressOf(t.rows, user, item).value;
            ProgressOf(ProgressUpdated(t, user, item, position, duration, now).rows, user, item)
              == Some(old_.(progress := UpdatedProgress(old_.progress, position, duration, DefaultCompletion, now)))
  {
    var k := FirstWhere(t.rows, ProgressQuery(user, item));
    var row := t.rows[k.value];
    var x := row.(progress := UpdatedProgress(row.progress, position, duration, DefaultCompletion, now));
    FirstWhereUpdate(t.rows, k.value, x, ProgressQuery(user, item));
  }

  /**
   * `set_progress`: the serializer's `create`, then `update_progress` with
   * the posted position (0 when absent) and duration.
   */
  function SetProgress(t: ProgressTable, user: nat, item: nat, position: Option<int>, duration: Option<int>,
                       completed: Option<bool>, now: int): ProgressTable {
    var created := CreatedProgress(t, user, item, position, duration, completed, now);
    ProgressUpdated(created, user, item, position.GetOr(0), duration, now)
  }

  /**
   * The row `set_progress` leaves: the posted duration, the position clamped
   * at 0, and completion when asked for or when the default threshold is met,
   * in which case the position is the duration.
   */
  lemma SetProgressRow(t: ProgressTable, user: nat, item: nat, position: Option<int>, duration: Option<int>,
                       completed: Option<bool>, now: int)
    ensures var row := ProgressOf(SetProgress(t, user, item, position, duration, completed, now).rows, user, item);
            var d := duration.GetOr(0);
            var pos := Max(position.GetOr(0), 0);
            var done := ReachesThreshold(pos, d, DefaultCompletion);
            row.Some? && row.value.progress == Progress(if done then d else pos, d, done || completed.GetOr(false), now)
  {
    CreatedProgressProps(t, user, item, position, duration, completed, now);
    var created := CreatedProgress(t, user, item, position, duration, completed, now);
    ProgressUpdatedRow(created, user, item, position.GetOr(0), duration, now);
  }

  /** `clear_progress`: the user's row for the item is deleted. */
  function ClearedProgress(t: ProgressTable, user: nat, item: nat): (r: ProgressTable)
    ensures ProgressOf(r.rows, user, item).None?
    ensures forall x :: x in r.rows <==> x in t.rows && !(x.userId == user && x.mediaItemId == item)
  {
    ProgressTable(Where(t.rows, (x: ProgressRow) => !(x.userId == user && x.mediaItemId == item)), t.nextId)
  }

  // ---------------------------------------------------------------------------
  // mark_watched

  /** `mark_watched`: `update_or_create` as completed at the full duration, then `update_progress`. */
  function MarkedWatched(t: ProgressTable, item: Item, files: seq<MediaFileRecord>, user: nat, now: int): ProgressTable {
    var d := ItemWatchedDuration(item, files);
    var created := CreatedProgress(t, user, item.id, Some(d), Some(d), Some(true), now);
    ProgressUpdated(created, user, item.id, d, Some(d), now)
  }

  /**
   * After `mark_watched` the user's row is completed; with a positive
   * duration the position is the whole duration. No other lookup changes.
   */
  lemma MarkedWatchedProps(t: ProgressTable, item: Item, files: seq<MediaFileRecord>, user: nat, now: int)
    ensures var row := ProgressOf(MarkedWatched(t, item, files, user, now).rows, user, item.id);
            var d := ItemWatchedDuration(item, files);
            row.Some? && row.value.progress.completed && row.value.progress.durationMs == d
            && row.value.progress.lastWatchedAt == now
            && (d > 0 ==> row.value.progress.positionMs == d)
    ensures forall u, id :: u != user || id != item.id ==>
              ProgressOf(MarkedWatched(t, item, files, user, now).rows, u, id) == ProgressOf(t.rows, u, id)
  {
    var d := ItemWatchedDuration(item, files);
    CreatedProgressProps(t, user, item.id, Some(d), Some(d), Some(true), now);
    var created := CreatedProgress(t, user, item.id, Some(d), Some(d), Some(true), now);
    ProgressUpdatedRow(created, user, item.id, d, Some(d), now);
    forall u, id | u != user || id != item.id
      ensures ProgressOf(MarkedWatched(t, item, files, user, now).rows, u, id) == ProgressOf(t.rows, u, id)
    {
      CreatedProgressOther(t, user, item.id, Some(d), Some(d), Some(true), now, u, id);
      ProgressUpdatedOther(created, user, item.id, d, Some(d), now, u, id);
    }
  }

  // ---------------------------------------------------------------------------
  // mark_series_watched / mark_series_unwatched

  predicate EpisodeOf(e: Item, showId: nat) {
    e.parentId == Some(showId) && e.itemType == Episode
  }

  datatype SeriesOutcome = NotAShow | SeriesUpdated(progress: ProgressTable, count: nat)

  /** The episode of one show: completed at its whole duration. */
  function EpisodeMarked(t: ProgressTable, e: Item, files: seq<MediaFileRecord>, user: nat, now: int): ProgressTable {
    var d := ItemWatchedDuration(e, files);
    CreatedProgress(t, user, e.id, Some(d), Some(d), Some(true), now)
  }

  /** The loop over the show's episodes, in table order. */
  function EpisodesMarked(t: ProgressTable, items: seq<Item>, showId: nat, files: seq<MediaFileRecord>, user: nat, now: int): ProgressTable
    decreases |items|
  {
    if items == [] then t
    else
      var n := |items| - 1;
      var before := EpisodesMarked(t, items[..n], showId, files, user, now);
      if EpisodeOf(items[n], showId) then EpisodeMarked(before, items[n], files, user, now) else before
  }

  function EpisodeCount(items: seq<Item>, showId: nat): (r: nat)
    ensures r <= |items|
    decreases |items|
  {
    if items == [] then 0
    else
      var n := |items| - 1;
      EpisodeCount(items[..n], showId) + (if EpisodeOf(items[n], showId) then 1 else 0)
  }

  /**
   * `mark_series_watched`: 400 for an item that is not a show; otherwise each
   * episode is marked watched, then the show itself, and the episodes are counted.
   */
  function SeriesWatched(t: ProgressTable, items: seq<Item>, files: seq<MediaFileRecord>, show: Item, user: nat, now: int): (r: SeriesOutcome)
    ensures r.NotAShow? <==> show.itemType != Show
  {
    if show.itemType != Show then NotAShow
    else
      var marked := EpisodesMarked(t, items, show.id, files, user, now);
      SeriesUpdated(CreatedProgress(marked, user, show.id, Some(0), Some(show.runtimeMs.GetOr(0)), Some(true), now),
                    EpisodeCount(items, show.id))
  }

  predicate DistinctIds(items: seq<Item>) {
    forall i, j :: 0 <= i < j < |items| ==> items[i].id != items[j].id
  }

  /** Every episode of the loop holds a completed row at its whole duration. */
  lemma {:induction false} EpisodesMarkedProps(t: ProgressTable, items: seq<Item>, showId: nat, files: seq<MediaFileRecord>, user: nat, now: int)
    requires DistinctIds(items)
    ensures var r := EpisodesMarked(t, items, showId, files, user, now);
            forall i :: 0 <= i < |items| && EpisodeOf(items[i], showId) ==>
              var d := ItemWatchedDuration(items[i], files);
              ProgressOf(r.rows, user, items[i].id).Some?
              && ProgressOf(r.rows, user, items[i].id).value.progress == Progress(d, d, true, now)
    decreases |items|
  {
    if items != [] {
      var n := |items| - 1;
      var pre := items[..n];
      assert forall i :: 0 <= i < n ==> pre[i] == items[i];
      EpisodesMarkedProps(t, pre, showId, files, user, now);
      var before := EpisodesMarked(t, pre, showId, files, user, now);
      var r := EpisodesMarked(t, items, showId, files, user, now);
      if EpisodeOf(items[n], showId) {
        var e := items[n];
        var d := ItemWatchedDuration(e, files);
        CreatedProgressProps(before, user, e.id, Some(d), Some(d), Some(true), now);
        forall i | 0 <= i < n && EpisodeOf(items[i], showId)
          ensures ProgressOf(r.rows, user, items[i].id) == ProgressOf(before.rows, user, items[i].id)
        {
          CreatedProgressOther(before, user, e.id, Some(d), Some(d), Some(true), now, user, items[i].id);
        }
      }
    }
  }

  /** No episode of the show has the id `id`. */
  predicate NoEpisodeWithId(items: seq<Item>, showId: nat, id: nat) {
    forall i :: 0 <= i < |items| && EpisodeOf(items[i], showId) ==> items[i].id != id
  }

  /** The loop leaves every lookup for another user, or for an item that is none of the episodes, untouched. */
  lemma {:induction false} EpisodesMarkedOthers(t: ProgressTable, items: seq<Item>, showId: nat, files: seq<MediaFileRecord>,
                                                user: nat, now: int, u: nat, id: nat)
    requires u != user || NoEpisodeWithId(items, showId, id)
    ensures ProgressOf(EpisodesMarked(t, items, showId, files, user, now).rows, u, id) == ProgressOf(t.rows, u, id)
    decreases |items|
  {
    if items != [] {
      var n := |items| - 1;
      var pre := items[..n];
      assert forall i :: 0 <= i < n ==> pre[i] == items[i];
      EpisodesMarkedOthers(t, pre, showId, files, user, now, u, id);
      var before := EpisodesMarked(t, pre, showId, files, user, now);
      if EpisodeOf(items[n], showId) {
        var e := items[n];
        var d := ItemWatchedDuration(e, files);
        CreatedProgressOther(before, user, e.id, Some(d), Some(d), Some(true), now, u, id);
      }
    }
  }

  /** After `mark_series_watched` on a show, the show holds a completed row at position 0 and the count is its episode count. */
  lemma SeriesWatchedShowRow(t: ProgressTable, items: seq<Item>, files: seq<MediaFileRecord>, show: Item, user: nat, now: int)
    requires show.itemType == Show
    ensures SeriesWatched(t, items, files, show, user, now).SeriesUpdated?
    ensures SeriesWatched(t, items, files, show, user, now).count == EpisodeCount(items, show.id)
    ensures ProgressOf(SeriesWatched(t, items, files, show, user, now).progress.rows, user, show.id).Some?
    ensures ProgressOf(SeriesWatched(t, items, files, show, user, now).progress.rows, user, show.id).value.progress
              == Progress(0, show.runtimeMs.GetOr(0), true, now)
  {
    var marked := EpisodesMarked(t, items, show.id, files, user, now);
    CreatedProgressProps(marked, user, show.id, Some(0), Some(show.runtimeMs.GetOr(0)), Some(true), now);
  }

  /** After `mark_series_watched` on a show, each of its episodes holds a completed row at its whole duration. */
  lemma SeriesWatchedEpisodes(t: ProgressTable, items: seq<Item>, files: seq<MediaFileRecord>, show: Item, user: nat, now: int, i: nat)
    requires show.itemType == Show && show in items && DistinctIds(items)
    requires i < |items| && EpisodeOf(items[i], show.id)
    ensures ProgressOf(SeriesWatched(t, items, files, show, user, now).progress.rows, user, items[i].id).Some?
    ensures ProgressOf(SeriesWatched(t, items, files, show, user, now).progress.rows, user, items[i].id).value.progress
              == Progress(ItemWatchedDuration(items[i], files), ItemWatchedDuration(items[i], files), true, now)
  {
    var s :| 0 <= s < |items| && items[s] == show;
    assert s != i;
    var marked := EpisodesMarked(t, items, show.id, files, user, now);
    EpisodesMarkedProps(t, items, show.id, files, user, now);
    CreatedProgressOther(marked, user, show.id, Some(0), Some(show.runtimeMs.GetOr(0)), Some(true), now, user, items[i].id);
  }

  /** `mark_series_watched`, one episode at a time. */
  method MarkSeriesWatched(t: ProgressTable, items: seq<Item>, files: seq<MediaFileRecord>, show: Item, user: nat, now: int)
    returns (r: SeriesOutcome)
    ensures r == SeriesWatched(t, items, files, show, user, now)
  {
    if show.itemType != Show {
      return NotAShow;
    }
    var progress := t;
    var updated := 0;
    var i := 0;
    while i < |items|
      invariant 0 <= i <= |items|
      invariant progress == EpisodesMarked(t, items[..i], show.id, files, user, now)
      invariant updated == EpisodeCount(items[..i], show.id)
    {
      assert items[..i + 1][..i] == items[..i];
      var e := items[i];
      if EpisodeOf(e, show.id) {
        var duration := ItemWatchedDuration(e, files);
        progress := CreatedProgress(progress, user, e.id, Some(duration), Some(duration), Some(true), now);
        updated := updated + 1;
      }
      i := i + 1;
    }
    assert items[..i] == items;
    progress := CreatedProgress(progress, user, show.id, Some(0), Some(show.runtimeMs.GetOr(0)), Some(true), now);
    r := SeriesUpdated(progress, updated);
  }

  /** The ids of the show's episodes. */
  function EpisodeIds(items: seq<Item>, showId: nat): (r: set<nat>)
    ensures forall i :: 0 <= i < |items| && EpisodeOf(items[i], showId) ==> items[i].id in r
  {
    set i | 0 <= i < |items| && EpisodeOf(items[i], showId) :: items[i].id
  }

  function EpisodeRow(user: nat, ids: set<nat>): ProgressRow -> bool {
    (x: ProgressRow) => x.userId == user && x.mediaItemId in ids
  }

  function OtherRow(user: nat, ids: set<nat>): ProgressRow -> bool {
    (x: ProgressRow) => !(x.userId == user && x.mediaItemId in ids)
  }

  /**
   * `mark_series_unwatched`: 400 for an item that is not a show; otherwise
   * the user's rows for its episodes are deleted and counted, then the
   * user's row for the show.
   */
  function SeriesUnwatched(t: ProgressTable, items: seq<Item>, show: Item, user: nat): (r: SeriesOutcome)
    ensures r.NotAShow? <==> show.itemType != Show
  {
    if show.itemType != Show then NotAShow
    else
      var ids := EpisodeIds(items, show.id);
      var cleared := |Where(t.rows, EpisodeRow(user, ids))|;
      var kept := ProgressTable(Where(t.rows, OtherRow(user, ids)), t.nextId);
      SeriesUpdated(ClearedProgress(kept, user, show.id), cleared)
  }

  /**
   * Afterwards the user has no row for the show or any episode; every other
   * row is kept; and the count plus the rows left by the first delete make
   * up the whole table.
   */
  lemma SeriesUnwatchedProps(t: ProgressTable, items: seq<Item>, show: Item, user: nat)
    ensures var r := SeriesUnwatched(t, items, show, user);
            r.SeriesUpdated? ==>
              ProgressOf(r.progress.rows, user, show.id).None?
              && (forall i :: 0 <= i < |items| && EpisodeOf(items[i], show.id) ==> ProgressOf(r.progress.rows, user, items[i].id).None?)
              && (forall x :: x in r.progress.rows <==>
                    x in t.rows && !(x.userId == user && (x.mediaItemId == show.id || x.mediaItemId in EpisodeIds(items, show.id))))
              && r.count <= |t.rows|
              && r.count == |t.rows| - |Where(t.rows, OtherRow(user, EpisodeIds(items, show.id)))|
  {
    if show.itemType == Show {
      var ids := EpisodeIds(items, show.id);
      WherePartition(t.rows, EpisodeRow(user, ids), OtherRow(user, ids));
      var r := SeriesUnwatched(t, items, show, user);
      forall i | 0 <= i < |items| && EpisodeOf(items[i], show.id)
        ensures ProgressOf(r.progress.rows, user, items[i].id).None?
      {
        assert items[i].id in ids;
      }
    }
  }

  // ---------------------------------------------------------------------------
  // WatchProgressViewSet.resume

  datatype ResumeInfo = ResumeInfo(positionMs: int, durationMs: int, remainingMs: int, completed: bool, resumeAllowed: bool)

  /** `resume`: what is left to watch, and whether resuming is offered. */
  function ResumeOf(p: Progress): (r: ResumeInfo)
    ensures r.positionMs == p.positionMs && r.durationMs == p.durationMs && r.completed == p.completed
    ensures r.remainingMs >= 0
    ensures p.positionMs <= p.durationMs ==> r.remainingMs == p.durationMs - p.positionMs
    ensures p.positionMs >= p.durationMs ==> r.remainingMs == 0
  {
    var remaining := Max(p.durationMs - p.positionMs, 0);
    ResumeInfo(p.positionMs, p.durationMs, remaining, p.completed, p.durationMs * 4 < remaining * 100)
  }

  /**
   * For stored (non-negative) values, resuming is offered exactly when the
   * duration is known and the position is short of the completion threshold
   * `update_progress` uses.
   */
  lemma ResumeAllowedIffBeforeThreshold(p: Progress)
    requires p.positionMs >= 0 && p.durationMs >= 0
    ensures ResumeOf(p).resumeAllowed <==> p.durationMs > 0 && !ReachesThreshold(p.positionMs, p.durationMs, DefaultCompletion)
  {
  }

  /** A row `update_progress` completed at its full duration is never offered for resuming. */
  lemma NoResumeAfterCompletion(p: Progress, position: int, duration: Option<int>, now: int)
    requires p.durationMs >= 0
    requires ReachesThreshold(Max(position, 0), UpdatedProgress(p, position, duration, DefaultCompletion, now).durationMs, DefaultCompletion)
    ensures !ResumeOf(UpdatedProgress(p, position, duration, DefaultCompletion, now)).resumeAllowed
    ensures ResumeOf(UpdatedProgress(p, position, duration, DefaultCompletion, now)).completed
  {
  }
}
