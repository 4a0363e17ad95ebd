/**
 * The logic of apps/media_library/serializers.py: the watch-progress payload
 * and watch summary of a media item, the progress writes of
 * `WatchProgressSerializer`, and the location sync of `LibrarySerializer`.
 */
module Serializers {
  import opened Wrappers
  import opened Models
  import opened Catalog

  // ---------------------------------------------------------------------------
  // Progress rows

  /** A `WatchProgress` row: at most one per (user, media item). */
  datatype ProgressRow = ProgressRow(id: nat, userId: nat, mediaItemId: nat, progress: Progress)

  function ProgressQuery(user: nat, item: nat): ProgressRow -> bool {
    (r: ProgressRow) => r.userId == user && r.mediaItemId == item
  }

  predicate UniqueProgress(rows: seq<ProgressRow>) {
    forall i, j :: 0 <= i < j < |rows| ==>
      !(rows[i].userId == rows[j].userId && rows[i].mediaItemId == rows[j].mediaItemId)
  }

  predicate ProgressIdsValid(rows: seq<ProgressRow>, nextId: nat) {
    (forall i :: 0 <= i < |rows| ==> rows[i].id < nextId)
    && (forall i, j :: 0 <= i < j < |rows| ==> rows[i].id != rows[j].id)
  }

  /** `_get_progress(obj, user)`: the user's row for the item, if any. */
  function ProgressOf(rows: seq<ProgressRow>, user: nat, item: nat): (r: Option<ProgressRow>)
    ensures r.Some? ==> r.value in rows && r.value.userId == user && r.value.mediaItemId == item
    ensures r.None? <==> forall j :: 0 <= j < |rows| ==> !(rows[j].userId == user && rows[j].mediaItemId == item)
  {
    var k := FirstWhere(rows, ProgressQuery(user, item));
    if k.Some? then Some(rows[k.value]) else None
  }

  // ---------------------------------------------------------------------------
  // get_watch_progress

  datatype ProgressPayload = ProgressPayload(id: nat, positionMs: int, durationMs: Option<int>, completed: bool, lastWatchedAt: int)

  /** The reported duration: the stored one, else the item's runtime (`duration_ms or runtime_ms`). */
  function ReportedDuration(stored: int, runtimeMs: Option<int>): (r: Option<int>)
    ensures stored != 0 ==> r == Some(stored)
    ensures stored == 0 ==> r == runtimeMs
  {
    if stored != 0 then Some(stored) else runtimeMs
  }

  /**
   * `get_watch_progress`: nothing for an anonymous request or an item the user
   * has no progress on; otherwise the stored row with the duration fallback.
   */
  function WatchProgressPayload(authenticated: bool, rows: seq<ProgressRow>, user: nat, item: Item): (r: Option<ProgressPayload>)
    ensures r.Some? <==> authenticated && ProgressOf(rows, user, item.id).Some?
    ensures r.Some? ==> var row := ProgressOf(rows, user, item.id).value;
                        r.value == ProgressPayload(row.id, row.progress.positionMs,
                                                   ReportedDuration(row.progress.durationMs, item.runtimeMs),
                                                   row.progress.completed, row.progress.lastWatchedAt)
  {
    if !authenticated then None
    else
      match ProgressOf(rows, user, item.id)
      case None => None
      case Some(row) =>
        Some(ProgressPayload(row.id, row.progress.positionMs, ReportedDuration(row.progress.durationMs, item.runtimeMs),
                             row.progress.completed, row.progress.lastWatchedAt))
  }

  /** The payload's duration is known and non-zero whenever the row or the item has one. */
  lemma ReportedDurationFallback(stored: int, runtimeMs: Option<int>)
    ensures (stored != 0 || (runtimeMs.Some? && runtimeMs.value != 0)) <==>
            (ReportedDuration(stored, runtimeMs).Some? && ReportedDuration(stored, runtimeMs).value != 0)
  {
  }

  // ---------------------------------------------------------------------------
  // get_watch_summary

  /** A child of a show as the summary sees it: its key, type and the user's progress. */
  datatype Child = Child(id: nat, itemType: ItemType, progress: Option<Progress>)

  predicate IsEpisodeChild(c: Child) {
    c.itemType == Episode
  }

  /** An episode the user has finished. */
  predicate IsFinished(c: Child) {
    c.itemType == Episode && c.progress.Some? && c.progress.value.completed
  }

  /** An episode started but not finished (`progress.position_ms` truthy). */
  predicate IsResumable(c: Child) {
    c.itemType == Episode && c.progress.Some? && !c.progress.value.completed && c.progress.value.positionMs != 0
  }

  /** An episode neither finished nor started. */
  predicate IsUnstarted(c: Child) {
    c.itemType == Episode && !IsFinished(c) && !IsResumable(c)
  }

  function WatchedAt(c: Child): int {
    if c.progress.Some? then c.progress.value.lastWatchedAt else 0
  }

  /** The number of children satisfying `p`. */
  function Count(cs: seq<Child>, p: Child -> bool): (n: nat)
    ensures n <= |cs|
    decreases |cs|
  {
    if cs == [] then 0 else Count(cs[..|cs| - 1], p) + (if p(cs[|cs| - 1]) then 1 else 0)
  }

  /**
   * The child satisfying `p` with the latest watch time; among equally
   * late ones, the earliest in order (a later one replaces it only when
   * strictly later).
   */
  function LatestWhere(cs: seq<Child>, p: Child -> bool): (r: Option<nat>)
    ensures r.Some? ==> r.value < |cs|
    decreases |cs|
  {
    if cs == [] then None
    else
      var k := LatestWhere(cs[..|cs| - 1], p);
      var c := cs[|cs| - 1];
      if p(c) && (k.None? || WatchedAt(c) > WatchedAt(cs[k.value])) then Some(|cs| - 1) else k
  }

  /** The chosen child is the first whose watch time is the latest among those satisfying `p`. */
  lemma {:induction false} LatestWhereProps(cs: seq<Child>, p: Child -> bool)
    ensures var r := LatestWhere(cs, p);
            r.None? <==> forall j :: 0 <= j < |cs| ==> !p(cs[j])
    ensures var r := LatestWhere(cs, p);
            r.Some? ==> p(cs[r.value])
                        && (forall j :: 0 <= j < r.value && p(cs[j]) ==> WatchedAt(cs[j]) < WatchedAt(cs[r.value]))
                        && (forall j :: r.value < j < |cs| && p(cs[j]) ==> WatchedAt(cs[j]) <= WatchedAt(cs[r.value]))
    decreases |cs|
  {
    if cs != [] {
      var init := cs[..|cs| - 1];
      LatestWhereProps(init, p);
      assert forall j :: 0 <= j < |init| ==> init[j] == cs[j];
    }
  }

  datatype WatchStatus = Unwatched | InProgress | Watched

  datatype ShowSummary = ShowSummary(
    status: WatchStatus,
    totalEpisodes: nat,
    completedEpisodes: nat,
    resumeEpisodeId: Option<nat>,
    nextEpisodeId: Option<nat>,
    lastCompletedEpisodeId: Option<nat>)

  function IdAt(cs: seq<Child>, k: Option<nat>): Option<nat> {
    if k.Some? && k.value < |cs| then Some(cs[k.value].id) else None
  }

  /** The rollup of a show's children, listed in (season, episode, id) order. */
  function RollupOf(cs: seq<Child>): ShowSummary {
    var total := Count(cs, IsEpisodeChild);
    var done := Count(cs, IsFinished);
    var resume := IdAt(cs, LatestWhere(cs, IsResumable));
    var next := IdAt(cs, FirstWhere(cs, IsUnstarted));
    var last := IdAt(cs, LatestWhere(cs, IsFinished));
    if total == 0 then ShowSummary(Unwatched, total, done, resume, next, last)
    else if done >= total then ShowSummary(Watched, total, done, resume, None, last)
    else if resume.Some? || done > 0 then
      ShowSummary(InProgress, total, done, if resume.Some? then resume else next, next, last)
    else ShowSummary(Unwatched, total, done, resume, next, last)
  }

  lemma {:induction false} CountImplies(cs: seq<Child>, p: Child -> bool, q: Child -> bool)
    requires forall c :: p(c) ==> q(c)
    ensures Count(cs, p) <= Count(cs, q)
    ensures Count(cs, p) < Count(cs, q) ==> exists j :: 0 <= j < |cs| && q(cs[j]) && !p(cs[j])
    decreases |cs|
  {
    if cs != [] {
      var init := cs[..|cs| - 1];
      CountImplies(init, p, q);
      if Count(init, p) < Count(init, q) {
        var j :| 0 <= j < |init| && q(init[j]) && !p(init[j]);
        assert cs[j] == init[j];
      }
    }
  }

  lemma {:induction false} CountZero(cs: seq<Child>, p: Child -> bool)
    ensures Count(cs, p) == 0 <==> forall j :: 0 <= j < |cs| ==> !p(cs[j])
    decreases |cs|
  {
    if cs != [] {
      var init := cs[..|cs| - 1];
      CountZero(init, p);
      assert forall j :: 0 <= j < |init| ==> init[j] == cs[j];
    }
  }

  /** The counts: total is the number of episode children, and 0 <= completed <= total. */
  lemma RollupCounts(cs: seq<Child>)
    ensures RollupOf(cs).totalEpisodes == Count(cs, IsEpisodeChild)
    ensures RollupOf(cs).completedEpisodes == Count(cs, IsFinished) <= RollupOf(cs).totalEpisodes
  {
    CountImplies(cs, IsFinished, IsEpisodeChild);
  }

  /** "watched" exactly when every one of at least one episode is finished, and then there is no next episode. */
  lemma RollupWatchedIff(cs: seq<Child>)
    ensures RollupOf(cs).status == Watched <==>
            RollupOf(cs).totalEpisodes > 0 && RollupOf(cs).completedEpisodes == RollupOf(cs).totalEpisodes
    ensures RollupOf(cs).status == Watched ==> RollupOf(cs).nextEpisodeId.None?
  {
    CountImplies(cs, IsFinished, IsEpisodeChild);
  }

  /**
   * "in_progress" always names an episode to resume: the latest started one,
   * else the first unstarted one.
   */
  lemma RollupInProgressResumes(cs: seq<Child>)
    ensures RollupOf(cs).status == InProgress ==> RollupOf(cs).resumeEpisodeId.Some?
    ensures RollupOf(cs).status == InProgress && LatestWhere(cs, IsResumable).None? ==>
            RollupOf(cs).resumeEpisodeId == IdAt(cs, FirstWhere(cs, IsUnstarted))
  {
    var r := RollupOf(cs);
    LatestWhereProps(cs, IsResumable);
    if r.status == InProgress && LatestWhere(cs, IsResumable).None? {
      CountImplies(cs, IsFinished, IsEpisodeChild);
      var j :| 0 <= j < |cs| && IsEpisodeChild(cs[j]) && !IsFinished(cs[j]);
      assert !IsResumable(cs[j]);
      assert IsUnstarted(cs[j]);
    }
  }

  /** "unwatched" exactly when there are no episodes, or none is finished or started. */
  lemma RollupUnwatchedIff(cs: seq<Child>)
    ensures RollupOf(cs).status == Unwatched <==>
            forall j :: 0 <= j < |cs| ==> !IsFinished(cs[j]) && !IsResumable(cs[j])
  {
    LatestWhereProps(cs, IsResumable);
    CountZero(cs, IsFinished);
    CountZero(cs, IsEpisodeChild);
    CountImplies(cs, IsFinished, IsEpisodeChild);
  }

  function ChildAt(cs: seq<Child>, k: Option<nat>): Option<Child> {
    if k.Some? && k.value < |cs| then Some(cs[k.value]) else None
  }

  /** The count over a prefix one longer. */
  lemma CountStep(cs: seq<Child>, i: nat, p: Child -> bool)
    requires i < |cs|
    ensures Count(cs[..i + 1], p) == Count(cs[..i], p) + (if p(cs[i]) then 1 else 0)
  {
    assert cs[..i + 1][..i] == cs[..i];
  }

  /** The latest child satisfying `p` in a prefix one longer. */
  lemma LatestStep(cs: seq<Child>, i: nat, p: Child -> bool)
    requires i < |cs|
    ensures var k := LatestWhere(cs[..i], p);
            LatestWhere(cs[..i + 1], p)
            == if p(cs[i]) && (k.None? || WatchedAt(cs[i]) > WatchedAt(cs[k.value])) then Some(i) else k
  {
    assert cs[..i + 1][..i] == cs[..i];
  }

  /** The first child satisfying `p` in a prefix one longer. */
  lemma FirstStep(cs: seq<Child>, i: nat, p: Child -> bool)
    requires i < |cs|
    ensures var f := FirstWhere(cs[..i], p);
            FirstWhere(cs[..i + 1], p) == if f.Some? then f else if p(cs[i]) then Some(i) else None
  {
    assert cs[..i + 1] == cs[..i] + [cs[i]];
    FirstWhereAppend(cs[..i], cs[i], p);
  }

  /** The show branch of `get_watch_summary`: one pass over the children. */
  method ShowWatchSummary(cs: seq<Child>) returns (s: ShowSummary)
    ensures s == RollupOf(cs)
  {
    var total := Count(cs, IsEpisodeChild);
    var completed := 0;
    var resume: Option<Child> := None;
    var resumeTime: Option<int> := None;
    var next: Option<Child> := None;
    var lastCompleted: Option<Child> := None;
    var lastCompletedTime: Option<int> := None;
    var i := 0;
    while i < |cs|
      invariant 0 <= i <= |cs|
      invariant completed == Count(cs[..i], IsFinished)
      invariant resume == ChildAt(cs, LatestWhere(cs[..i], IsResumable))
      invariant resume.Some? <==> resumeTime.Some?
      invariant resume.Some? ==> resumeTime.value == WatchedAt(resume.value)
      invariant lastCompleted == ChildAt(cs, LatestWhere(cs[..i], IsFinished))
      invariant lastCompleted.Some? <==> lastCompletedTime.Some?
      invariant lastCompleted.Some? ==> lastCompletedTime.value == WatchedAt(lastCompleted.value)
      invariant next == ChildAt(cs, FirstWhere(cs[..i], IsUnstarted))
    {
      var c := cs[i];
      CountStep(cs, i, IsFinished);
      LatestStep(cs, i, IsFinished);
      LatestStep(cs, i, IsResumable);
      FirstStep(cs, i, IsUnstarted);
      if c.itemType != Episode {
        assert !IsFinished(c) && !IsResumable(c) && !IsUnstarted(c);
        i := i + 1;
        continue;
      }
      var progress := c.progress;
      if progress.Some? && progress.value.completed {
        assert IsFinished(c) && !IsResumable(c) && !IsUnstarted(c);
        completed := completed + 1;
        if lastCompletedTime.None? || progress.value.lastWatchedAt > lastCompletedTime.value {
          lastCompletedTime := Some(progress.value.lastWatchedAt);
          lastCompleted := Some(c);
        }
      } else if progress.Some? && progress.value.positionMs != 0 {
        assert !IsFinished(c) && IsResumable(c) && !IsUnstarted(c);
        if resumeTime.None? || progress.value.lastWatchedAt > resumeTime.value {
          resumeTime := Some(progress.value.lastWatchedAt);
          resume := Some(c);
        }
      } else {
        assert !IsFinished(c) && !IsResumable(c) && IsUnstarted(c);
        if next.None? {
          next := Some(c);
        }
      }
      i := i + 1;
    }
    assert cs[..i] == cs;
    var status := Unwatched;
    if total == 0 {
      status := Unwatched;
    } else if completed >= total && total > 0 {
      status := Watched;
      next := None;
    } else if resume.Some? || completed > 0 {
      status := InProgress;
      if resume.None? {
        resume := next;
      }
    }
    s := ShowSummary(status, total, completed, IdOf(resume), IdOf(next), IdOf(lastCompleted));
  }

  function IdOf(c: Option<Child>): Option<nat> {
    if c.Some? then Some(c.value.id) else None
  }

  /** The summary of an item that is not a show, from the user's progress on it. */
  datatype ItemSummary =
    | ItemUnwatched
    | ItemWatched(positionMs: int, durationMs: int)
    | ItemInProgress(positionMs: int, durationMs: int)

  function ItemSummaryOf(progress: Option<Progress>): (r: ItemSummary)
    ensures progress.None? <==> r == ItemUnwatched
    ensures r.ItemWatched? <==> progress.Some? && progress.value.completed
    ensures !r.ItemUnwatched? ==> r.positionMs == progress.value.positionMs && r.durationMs == progress.value.durationMs
  {
    match progress
    case None => ItemUnwatched
    case Some(p) =>
      if p.completed then ItemWatched(p.positionMs, p.durationMs) else ItemInProgress(p.positionMs, p.durationMs)
  }

  /** Once playback reaches the completion threshold, the item reports as watched, at its full duration. */
  lemma WatchedAfterThreshold(p: Progress, position: int, duration: Option<int>, t: Threshold, now: int)
    requires ReachesThreshold(Max(position, 0), if duration.Some? then Max(p.durationMs, duration.value) else p.durationMs, t)
    ensures var q := UpdatedProgress(p, position, duration, t, now);
            ItemSummaryOf(Some(q)) == ItemWatched(q.durationMs, q.durationMs)
  {
  }

  datatype Summary = ForShow(show: ShowSummary) | ForItem(item: ItemSummary)

  /** `get_watch_summary`: nothing for an anonymous request. */
  method WatchSummary(authenticated: bool, item: Item, children: seq<Child>, rows: seq<ProgressRow>, user: nat)
    returns (r: Option<Summary>)
    ensures !authenticated ==> r.None?
    ensures authenticated && item.itemType == Show ==> r == Some(ForShow(RollupOf(children)))
    ensures authenticated && item.itemType != Show ==>
              var row := ProgressOf(rows, user, item.id);
              r == Some(ForItem(ItemSummaryOf(if row.Some? then Some(row.value.progress) else None)))
  {
    if !authenticated {
      return None;
    }
    if item.itemType == Show {
      var s := ShowWatchSummary(children);
      return Some(ForShow(s));
    }
    var row := ProgressOf(rows, user, item.id);
    r := Some(ForItem(ItemSummaryOf(if row.Some? then Some(row.value.progress) else None)));
  }

  // ---------------------------------------------------------------------------
  // WatchProgressSerializer.update / create

  /** `update`: omitted fields keep their values; the duration never shrinks. */
  function SerializerUpdated(p: Progress, position: Option<int>, duration: Option<int>, completed: Option<bool>, now: int): (r: Progress)
    ensures r.durationMs == Max(p.durationMs, duration.GetOr(p.durationMs)) && r.durationMs >= p.durationMs
    ensures duration.Some? ==> r.durationMs >= duration.value
    ensures r.positionMs == position.GetOr(p.positionMs)
    ensures r.completed == completed.GetOr(p.completed)
    ensures r.lastWatchedAt == now
  {
    Progress(position.GetOr(p.positionMs), Max(p.durationMs, duration.GetOr(p.durationMs)),
             completed.GetOr(p.completed), now)
  }

  /** Sending the same update twice leaves the row as one send does. */
  lemma SerializerUpdateIdempotent(p: Progress, position: Option<int>, duration: Option<int>, completed: Option<bool>, now: int)
    ensures var q := SerializerUpdated(p, position, duration, completed, now);
            SerializerUpdated(q, position, duration, completed, now) == q
  {
  }

  /** An empty update only touches the save time (`auto_now`). */
  lemma SerializerUpdateEmpty(p: Progress, now: int)
    ensures SerializerUpdated(p, None, None, None, now) == p.(lastWatchedAt := now)
  {
  }

  method UpdateWatchProgress(instance: WatchProgress, position: Option<int>, duration: Option<int>, completed: Option<bool>, now: int)
    modifies instance
    ensures instance.Value() == SerializerUpdated(old(instance.Value()), position, duration, completed, now)
  {
    instance.positionMs := position.GetOr(instance.positionMs);
    instance.durationMs := Max(instance.durationMs, duration.GetOr(instance.durationMs));
    instance.completed := completed.GetOr(instance.completed);
    instance.lastWatchedAt := now;
  }

  datatype ProgressTable = ProgressTable(rows: seq<ProgressRow>, nextId: nat)

  /**
   * `create`: `update_or_create` on (user, media item); the given values, or
   * 0, 0 and false, replace those of an existing row.
   */
  function CreatedProgress(t: ProgressTable, user: nat, item: nat, position: Option<int>, duration: Option<int>,
                           completed: Option<bool>, now: int): ProgressTable
  {
    var p := Progress(position.GetOr(0), duration.GetOr(0), completed.GetOr(false), now);
    var k := FirstWhere(t.rows, ProgressQuery(user, item));
    if k.None? then ProgressTable(t.rows + [ProgressRow(t.nextId, user, item, p)], t.nextId + 1)
    else ProgressTable(t.rows[k.value := t.rows[k.value].(progress := p)], t.nextId)
  }

  /** The user's row for the item holds the written values; no other row changes; keys stay distinct. */
  lemma CreatedProgressProps(t: ProgressTable, user: nat, item: nat, position: Option<int>, duration: Option<int>,
                             completed: Option<bool>, now: int)
    ensures var r := CreatedProgress(t, user, item, position, duration, completed, now);
            var p := Progress(position.GetOr(0), duration.GetOr(0), completed.GetOr(false), now);
            ProgressOf(r.rows, user, item).Some? && ProgressOf(r.rows, user, item).value.progress == p
    ensures var r := CreatedProgress(t, user, item, position, duration, completed, now);
            ProgressOf(t.rows, user, item).None? ==>
              (r.rows == t.rows + [ProgressRow(t.nextId, user, item, r.rows[|t.rows|].progress)] && r.nextId == t.nextId + 1)
    ensures var r := CreatedProgress(t, user, item, position, duration, completed, now);
            ProgressOf(t.rows, user, item).Some? ==>
              (|r.rows| == |t.rows| && r.nextId == t.nextId
               && ProgressOf(r.rows, user, item).value.id == ProgressOf(t.rows, user, item).value.id)
    ensures var r := CreatedProgress(t, user, item, position, duration, completed, now);
            forall j :: 0 <= j < |t.rows| && !ProgressQuery(user, item)(t.rows[j]) ==> r.rows[j] == t.rows[j]
  {
    var p := Progress(position.GetOr(0), duration.GetOr(0), completed.GetOr(false), now);
    var k := FirstWhere(t.rows, ProgressQuery(user, item));
    if k.None? {
      FirstWhereAppend(t.rows, ProgressRow(t.nextId, user, item, p), ProgressQuery(user, item));
    } else {
      FirstWhereUpdate(t.rows, k.value, t.rows[k.value].(progress := p), ProgressQuery(user, item));
    }
  }

  /** Update-or-create keeps (user, item) pairs unique and ids distinct and below the next id. */
  lemma CreatedProgressKeys(t: ProgressTable, user: nat, item: nat, position: Option<int>, duration: Option<int>,
                            completed: Option<bool>, now: int)
    ensures var r := CreatedProgress(t, user, item, position, duration, completed, now);
            (UniqueProgress(t.rows) ==> UniqueProgress(r.rows))
            && (ProgressIdsValid(t.rows, t.nextId) ==> ProgressIdsValid(r.rows, r.nextId))
  {
    var p := Progress(position.GetOr(0), duration.GetOr(0), completed.GetOr(false), now);
    var k := FirstWhere(t.rows, ProgressQuery(user, item));
    var r := CreatedProgress(t, user, item, position, duration, completed, now);
    if k.Some? {
      assert forall j :: 0 <= j < |t.rows| ==> r.rows[j].id == t.rows[j].id;
    }
  }

  /** Creating twice with the same values gives the same table as once, up to the save time. */
  lemma CreatedProgressIdempotent(t: ProgressTable, user: nat, item: nat, position: Option<int>, duration: Option<int>,
                                  completed: Option<bool>, now: int)
    ensures var once := CreatedProgress(t, user, item, position, duration, completed, now);
            CreatedProgress(once, user, item, position, duration, completed, now) == once
  {
    var once := CreatedProgress(t, user, item, position, duration, completed, now);
    CreatedProgressProps(t, user, item, position, duration, completed, now);
    var k := FirstWhere(once.rows, ProgressQuery(user, item));
    assert k.Some?;
    assert once.rows[k.value := once.rows[k.value].(progress := once.rows[k.value].progress)] == once.rows;
  }

  // ---------------------------------------------------------------------------
  // LibrarySerializer._sync_locations

  /** One entry of a library payload's `locations` list, after validation. */
  datatype LocationEntry = LocationEntry(id: Option<nat>, path: string, includeSubdirectories: Option<bool>, isPrimary: Option<bool>)

  datatype LocationTable = LocationTable(rows: seq<Location>, nextId: nat)

  /** A sync either commits a new table or hits the unique (library, path) constraint and rolls back. */
  datatype SyncOutcome = Synced(table: LocationTable) | IntegrityError

  /** The loop's state: the table so far, the ids it has kept, and whether an entry asked to be primary. */
  datatype SyncState = SyncState(rows: seq<Location>, nextId: nat, seen: set<nat>, primarySet: bool)

  /** Some row of the library other than `id` already has `path`. */
  predicate PathTaken(rows: seq<Location>, lib: nat, path: string, except: Option<nat>) {
    exists j :: 0 <= j < |rows| && rows[j].libraryId == lib && rows[j].path == path && Some(rows[j].id) != except
  }

  predicate HasLocation(rows: seq<Location>, lib: nat, id: nat) {
    exists j :: 0 <= j < |rows| && rows[j].id == id && rows[j].libraryId == lib
  }

  /** `filter(pk=id, library=library).update(**entry_data)`. */
  function UpdatedLocations(rows: seq<Location>, lib: nat, id: nat, path: string, incl: bool, primary: bool): (r: seq<Location>)
    ensures |r| == |rows|
    ensures forall i :: 0 <= i < |rows| ==> r[i].id == rows[i].id && r[i].libraryId == rows[i].libraryId
  {
    seq(|rows|, i requires 0 <= i < |rows| =>
      if rows[i].id == id && rows[i].libraryId == lib
      then rows[i].(path := path, includeSubdirectories := incl, isPrimary := primary)
      else rows[i])
  }

  /** One pass of the loop over the payload. */
  function ApplyEntry(st: SyncState, lib: nat, e: LocationEntry): Option<SyncState> {
    var incl := e.includeSubdirectories.GetOr(true);
    var primary := e.isPrimary.GetOr(false);
    var primarySet := st.primarySet || primary;
    if TruthyInt(e.id) then
      if HasLocation(st.rows, lib, e.id.value) && PathTaken(st.rows, lib, e.path, e.id) then None
      else Some(SyncState(UpdatedLocations(st.rows, lib, e.id.value, e.path, incl, primary), st.nextId,
                          st.seen + {e.id.value}, primarySet))
    else
      if PathTaken(st.rows, lib, e.path, None) then None
      else Some(SyncState(st.rows + [Location(st.nextId, lib, e.path, incl, primary)], st.nextId + 1,
                          st.seen + {st.nextId}, primarySet))
  }

  function ApplyEntries(st: SyncState, lib: nat, es: seq<LocationEntry>): Option<SyncState>
    decreases |es|
  {
    if es == [] then Some(st)
    else
      var before := ApplyEntries(st, lib, es[..|es| - 1]);
      if before.None? then None else ApplyEntry(before.value, lib, es[|es| - 1])
  }

  /** A failed entry fails the whole payload. */
  lemma {:induction false} ApplyEntriesStuck(st: SyncState, lib: nat, es: seq<LocationEntry>, k: nat)
    requires k <= |es| && ApplyEntries(st, lib, es[..k]).None?
    ensures ApplyEntries(st, lib, es).None?
    decreases |es| - k
  {
    if k < |es| {
      assert es[..k + 1][..k] == es[..k];
      ApplyEntriesStuck(st, lib, es, k + 1);
    } else {
      assert es[..k] == es;
    }
  }

  /** Deleting the library's locations that the payload does not name. */
  function Pruned(rows: seq<Location>, lib: nat, seen: set<nat>): seq<Location>
    decreases |rows|
  {
    if rows == [] then []
    else
      var x := rows[|rows| - 1];
      Pruned(rows[..|rows| - 1], lib, seen) + (if x.libraryId != lib || x.id in seen then [x] else [])
  }

  /** The rows the delete keeps: other libraries' rows and the seen ones. */
  lemma {:induction false} PrunedMembers(rows: seq<Location>, lib: nat, seen: set<nat>)
    ensures forall x :: x in Pruned(rows, lib, seen) <==> x in rows && (x.libraryId != lib || x.id in seen)
    decreases |rows|
  {
    if rows != [] {
      var init := rows[..|rows| - 1];
      PrunedMembers(init, lib, seen);
      assert rows == init + [rows[|rows| - 1]];
    }
  }

  /** `filter(library=library).order_by("id").first()`, as an index. */
  function LowestLocation(rows: seq<Location>, lib: nat): (r: Option<nat>)
    ensures r.None? <==> forall j :: 0 <= j < |rows| ==> rows[j].libraryId != lib
    ensures r.Some? ==> r.value < |rows| && rows[r.value].libraryId == lib
                        && forall j :: 0 <= j < |rows| && rows[j].libraryId == lib ==> rows[r.value].id <= rows[j].id
    decreases |rows|
  {
    if rows == [] then None
    else
      var k := LowestLocation(rows[..|rows| - 1], lib);
      var x := rows[|rows| - 1];
      assert forall j :: 0 <= j < |rows| - 1 ==> rows[..|rows| - 1][j] == rows[j];
      if x.libraryId == lib && (k.None? || x.id < rows[k.value].id) then Some(|rows| - 1) else k
  }

  /** When no entry asked to be primary, the library's lowest-id location becomes primary. */
  function WithPrimary(rows: seq<Location>, lib: nat, primarySet: bool): (r: seq<Location>)
    ensures |r| == |rows| && forall i :: 0 <= i < |rows| ==> r[i].id == rows[i].id && r[i].libraryId == rows[i].libraryId
  {
    if primarySet then rows
    else
      match LowestLocation(rows, lib)
      case None => rows
      case Some(k) => rows[k := rows[k].(isPrimary := true)]
  }

  /** The whole of `_sync_locations`. */
  function SyncedLocations(t: LocationTable, lib: nat, es: seq<LocationEntry>): SyncOutcome {
    match ApplyEntries(SyncState(t.rows, t.nextId, {}, false), lib, es)
    case None => IntegrityError
    case Some(st) => Synced(LocationTable(WithPrimary(Pruned(st.rows, lib, st.seen), lib, st.primarySet), st.nextId))
  }

  method SyncLocations(t: LocationTable, lib: nat, es: seq<LocationEntry>) returns (r: SyncOutcome)
    ensures r == SyncedLocations(t, lib, es)
  {
    var rows := t.rows;
    var nextId := t.nextId;
    var seen: set<nat> := {};
    var primarySet := false;
    var i := 0;
    while i < |es|
      invariant 0 <= i <= |es|
      invariant ApplyEntries(SyncState(t.rows, t.nextId, {}, false), lib, es[..i]) == Some(SyncState(rows, nextId, seen, primarySet))
    {
      assert es[..i + 1][..i] == es[..i];
      var e := es[i];
      var incl := e.includeSubdirectories.GetOr(true);
      var primary := e.isPrimary.GetOr(false);
      if primary {
        primarySet := true;
      }
      if TruthyInt(e.id) {
        if HasLocation(rows, lib, e.id.value) && PathTaken(rows, lib, e.path, e.id) {
          ApplyEntriesStuck(SyncState(t.rows, t.nextId, {}, false), lib, es, i + 1);
          return IntegrityError;
        }
        rows := UpdatedLocations(rows, lib, e.id.value, e.path, incl, primary);
        seen := seen + {e.id.value};
      } else {
        if PathTaken(rows, lib, e.path, None) {
          ApplyEntriesStuck(SyncState(t.rows, t.nextId, {}, false), lib, es, i + 1);
          return IntegrityError;
        }
        rows := rows + [Location(nextId, lib, e.path, incl, primary)];
        seen := seen + {nextId};
        nextId := nextId + 1;
      }
      i := i + 1;
    }
    assert es[..i] == es;
    r := Synced(LocationTable(WithPrimary(Pruned(rows, lib, seen), lib, primarySet), nextId));
  }

  /** The rows of other libraries stay exactly as they were. */
  function OtherRows(rows: seq<Location>, lib: nat): seq<Location>
    decreases |rows|
  {
    if rows == [] then []
    else OtherRows(rows[..|rows| - 1], lib) + (if rows[|rows| - 1].libraryId != lib then [rows[|rows| - 1]] else [])
  }

  lemma {:induction false} OtherRowsPointwise(a: seq<Location>, b: seq<Location>, lib: nat)
    requires |a| == |b|
    requires forall i :: 0 <= i < |a| ==> a[i].libraryId == b[i].libraryId && (a[i].libraryId != lib ==> a[i] == b[i])
    ensures OtherRows(a, lib) == OtherRows(b, lib)
    decreases |a|
  {
    if a != [] {
      OtherRowsPointwise(a[..|a| - 1], b[..|b| - 1], lib);
    }
  }

  lemma {:induction false} OtherRowsPruned(rows: seq<Location>, lib: nat, seen: set<nat>)
    ensures OtherRows(Pruned(rows, lib, seen), lib) == OtherRows(rows, lib)
    decreases |rows|
  {
    if rows != [] {
      var init := rows[..|rows| - 1];
      var x := rows[|rows| - 1];
      OtherRowsPruned(init, lib, seen);
      var kept := if x.libraryId != lib || x.id in seen then [x] else [];
      assert Pruned(rows, lib, seen) == Pruned(init, lib, seen) + kept;
      if kept != [] {
        assert (Pruned(init, lib, seen) + kept)[..|Pruned(init, lib, seen) + kept| - 1] == Pruned(init, lib, seen);
      } else {
        assert Pruned(init, lib, seen) + kept == Pruned(init, lib, seen);
      }
    }
  }

  lemma OtherRowsWithPrimary(rows: seq<Location>, lib: nat, primarySet: bool)
    ensures OtherRows(WithPrimary(rows, lib, primarySet), lib) == OtherRows(rows, lib)
  {
    OtherRowsPointwise(WithPrimary(rows, lib, primarySet), rows, lib);
  }

  predicate Named(es: seq<LocationEntry>, id: nat) {
    exists i :: 0 <= i < |es| && es[i].id == Some(id)
  }

  predicate NoPrimaryAsked(es: seq<LocationEntry>) {
    forall i :: 0 <= i < |es| ==> !es[i].isPrimary.GetOr(false)
  }

  /** What the loop keeps true: other libraries untouched, every kept id named or freshly created. */
  lemma {:induction false} ApplyEntriesProps(t: LocationTable, lib: nat, es: seq<LocationEntry>)
    ensures var r := ApplyEntries(SyncState(t.rows, t.nextId, {}, false), lib, es);
            r.Some? ==> OtherRows(r.value.rows, lib) == OtherRows(t.rows, lib) && t.nextId <= r.value.nextId
                        && (forall id :: id in r.value.seen ==> Named(es, id) || t.nextId <= id)
                        && (forall j :: 0 <= j < |r.value.rows| && r.value.rows[j].libraryId == lib ==>
                              HasLocation(t.rows, lib, r.value.rows[j].id) || t.nextId <= r.value.rows[j].id)
                        && (NoPrimaryAsked(es) ==> !r.value.primarySet)
    decreases |es|
  {
    if es != [] {
      var init := es[..|es| - 1];
      var e := es[|es| - 1];
      ApplyEntriesProps(t, lib, init);
      var before := ApplyEntries(SyncState(t.rows, t.nextId, {}, false), lib, init);
      forall id: nat | Named(init, id) ensures Named(es, id) {
        var i :| 0 <= i < |init| && init[i].id == Some(id);
        assert es[i] == init[i];
      }
      if NoPrimaryAsked(es) {
        forall i | 0 <= i < |init| ensures !init[i].isPrimary.GetOr(false) {
          assert es[i] == init[i];
        }
      }
      if TruthyInt(e.id) {
        assert es[|es| - 1].id == Some(e.id.value);
      }
      if before.Some? {
        var st := before.value;
        if TruthyInt(e.id) && !(HasLocation(st.rows, lib, e.id.value) && PathTaken(st.rows, lib, e.path, e.id)) {
          var rows' := UpdatedLocations(st.rows, lib, e.id.value, e.path, e.includeSubdirectories.GetOr(true), e.isPrimary.GetOr(false));
          OtherRowsPointwise(rows', st.rows, lib);
        } else if !TruthyInt(e.id) && !PathTaken(st.rows, lib, e.path, None) {
          var x := Location(st.nextId, lib, e.path, e.includeSubdirectories.GetOr(true), e.isPrimary.GetOr(false));
          assert (st.rows + [x])[..|st.rows|] == st.rows;
        }
      }
    }
  }

  /** `_sync_locations` leaves every other library's locations exactly as they were. */
  lemma SyncKeepsOtherLibraries(t: LocationTable, lib: nat, es: seq<LocationEntry>)
    ensures SyncedLocations(t, lib, es).Synced? ==> OtherRows(SyncedLocations(t, lib, es).table.rows, lib) == OtherRows(t.rows, lib)
  {
    ApplyEntriesProps(t, lib, es);
    var r := ApplyEntries(SyncState(t.rows, t.nextId, {}, false), lib, es);
    if r.Some? {
      OtherRowsPruned(r.value.rows, lib, r.value.seen);
      OtherRowsWithPrimary(Pruned(r.value.rows, lib, r.value.seen), lib, r.value.primarySet);
    }
  }

  /** Only the payload's locations remain: every location left is one an entry named or one created for it. */
  lemma SyncKeepsOnlyPayload(t: LocationTable, lib: nat, es: seq<LocationEntry>)
    ensures var r := SyncedLocations(t, lib, es);
            r.Synced? ==> forall j :: 0 <= j < |r.table.rows| && r.table.rows[j].libraryId == lib ==>
                            (Named(es, r.table.rows[j].id) && HasLocation(t.rows, lib, r.table.rows[j].id))
                            || t.nextId <= r.table.rows[j].id
  {
    ApplyEntriesProps(t, lib, es);
    var a := ApplyEntries(SyncState(t.rows, t.nextId, {}, false), lib, es);
    if a.Some? {
      var st := a.value;
      var pruned := Pruned(st.rows, lib, st.seen);
      PrunedMembers(st.rows, lib, st.seen);
      var result := WithPrimary(pruned, lib, st.primarySet);
      forall j | 0 <= j < |result| && result[j].libraryId == lib
        ensures (Named(es, result[j].id) && HasLocation(t.rows, lib, result[j].id)) || t.nextId <= result[j].id
      {
        var x := pruned[j];
        assert x.id == result[j].id && x.libraryId == lib;
        assert x in pruned;
        assert x in st.rows && x.id in st.seen;
        var k :| 0 <= k < |st.rows| && st.rows[k] == x;
        assert HasLocation(t.rows, lib, st.rows[k].id) || t.nextId <= st.rows[k].id;
      }
    }
  }

  lemma {:induction false} LowestLocationSameKeys(a: seq<Location>, b: seq<Location>, lib: nat)
    requires |a| == |b| && forall i :: 0 <= i < |a| ==> a[i].id == b[i].id && a[i].libraryId == b[i].libraryId
    ensures LowestLocation(a, lib) == LowestLocation(b, lib)
    decreases |a|
  {
    if a != [] {
      LowestLocationSameKeys(a[..|a| - 1], b[..|b| - 1], lib);
    }
  }

  /** With no entry asking to be primary, the library's lowest-id remaining location is primary. */
  lemma SyncSetsPrimary(t: LocationTable, lib: nat, es: seq<LocationEntry>)
    requires NoPrimaryAsked(es)
    ensures var r := SyncedLocations(t, lib, es);
            r.Synced? && LowestLocation(r.table.rows, lib).Some? ==>
              r.table.rows[LowestLocation(r.table.rows, lib).value].isPrimary
  {
    ApplyEntriesProps(t, lib, es);
    var a := ApplyEntries(SyncState(t.rows, t.nextId, {}, false), lib, es);
    if a.Some? {
      var pruned := Pruned(a.value.rows, lib, a.value.seen);
      LowestLocationSameKeys(WithPrimary(pruned, lib, false), pruned, lib);
    }
  }

  // ---------------------------------------------------------------------------
  // Re-sending a library's own locations

  /** A location as `LibraryLocationSerializer` lists it, read back as a payload entry. */
  function EntryOf(x: Location): LocationEntry {
    LocationEntry(Some(x.id), x.path, Some(x.includeSubdirectories), Some(x.isPrimary))
  }

  /** The library's `locations` as the API returns them. */
  function LocationEntriesOf(rows: seq<Location>, lib: nat): (r: seq<LocationEntry>)
    ensures r == [] <==> forall j :: 0 <= j < |rows| ==> rows[j].libraryId != lib
    ensures forall i :: 0 <= i < |r| ==>
              exists j :: 0 <= j < |rows| && rows[j].libraryId == lib && r[i] == EntryOf(rows[j])
    decreases |rows|
  {
    if rows == [] then []
    else
      var init := rows[..|rows| - 1];
      var x := rows[|rows| - 1];
      var es := LocationEntriesOf(init, lib);
      assert forall j :: 0 <= j < |init| ==> init[j] == rows[j];
      es + (if x.libraryId == lib then [EntryOf(x)] else [])
  }

  /**
   * What request validation keeps of the entries: `id` is a read-only field
   * of `LibraryLocationSerializer`, so it never reaches `validated_data`.
   */
  function ValidatedLocationEntries(es: seq<LocationEntry>): (r: seq<LocationEntry>)
    ensures |r| == |es| && forall i :: 0 <= i < |es| ==> r[i] == es[i].(id := None)
  {
    seq(|es|, i requires 0 <= i < |es| => es[i].(id := None))
  }

  /**
   * As written: sending a library's locations back unchanged fails. Every
   * entry loses its id, so the first one is created anew beside the row
   * that already holds its path, which the unique (library, path)
   * constraint refuses.
   */
  lemma ResendFailsAsWritten(t: LocationTable, lib: nat)
    requires exists j :: 0 <= j < |t.rows| && t.rows[j].libraryId == lib
    ensures SyncedLocations(t, lib, ValidatedLocationEntries(LocationEntriesOf(t.rows, lib))) == IntegrityError
  {
    var st0 := SyncState(t.rows, t.nextId, {}, false);
    var es := ValidatedLocationEntries(LocationEntriesOf(t.rows, lib));
    var first := LocationEntriesOf(t.rows, lib)[0];
    var j :| 0 <= j < |t.rows| && t.rows[j].libraryId == lib && first == EntryOf(t.rows[j]);
    assert es[..1][..0] == [];
    assert PathTaken(t.rows, lib, es[0].path, None) by {
      assert t.rows[j].libraryId == lib && t.rows[j].path == es[0].path;
    }
    assert ApplyEntries(st0, lib, es[..1]).None?;
    ApplyEntriesStuck(st0, lib, es, 1);
  }

  predicate LocationIdsValid(rows: seq<Location>, nextId: nat) {
    (forall i :: 0 <= i < |rows| ==> 0 < rows[i].id < nextId)
    && (forall i, j :: 0 <= i < |rows| && 0 <= j < |rows| && i != j ==> rows[i].id != rows[j].id)
  }

  /** The unique (library, path) constraint. */
  predicate UniqueLocationPaths(rows: seq<Location>) {
    forall i, j :: 0 <= i < |rows| && 0 <= j < |rows| && i != j ==>
      !(rows[i].libraryId == rows[j].libraryId && rows[i].path == rows[j].path)
  }

  function IdsOf(rows: seq<Location>, lib: nat): (r: set<nat>)
    ensures forall i :: 0 <= i < |rows| && rows[i].libraryId == lib ==> rows[i].id in r
    decreases |rows|
  {
    if rows == [] then {}
    else
      var x := rows[|rows| - 1];
      var ids := IdsOf(rows[..|rows| - 1], lib);
      assert forall i :: 0 <= i < |rows| - 1 ==> rows[..|rows| - 1][i] == rows[i];
      ids + (if x.libraryId == lib then {x.id} else {})
  }

  function PrimaryIn(rows: seq<Location>, lib: nat): bool
    decreases |rows|
  {
    if rows == [] then false
    else PrimaryIn(rows[..|rows| - 1], lib) || (rows[|rows| - 1].libraryId == lib && rows[|rows| - 1].isPrimary)
  }

  lemma {:induction false} PrunedAll(rows: seq<Location>, lib: nat, seen: set<nat>)
    requires forall i :: 0 <= i < |rows| && rows[i].libraryId == lib ==> rows[i].id in seen
    ensures Pruned(rows, lib, seen) == rows
    decreases |rows|
  {
    if rows != [] {
      var init := rows[..|rows| - 1];
      var x := rows[|rows| - 1];
      assert forall i :: 0 <= i < |init| ==> init[i] == rows[i];
      PrunedAll(init, lib, seen);
      assert x.libraryId != lib || x.id in seen;
      assert Pruned(rows, lib, seen) == Pruned(init, lib, seen) + [x];
      assert init + [x] == rows;
    }
  }

  /** Re-sending one existing location with its id rewrites its row to itself. */
  lemma ResendStep(rows: seq<Location>, nextId: nat, lib: nat, m: nat, ids: set<nat>, primary: bool)
    requires m < |rows| && rows[m].libraryId == lib
    requires LocationIdsValid(rows, nextId) && UniqueLocationPaths(rows)
    ensures ApplyEntry(SyncState(rows, nextId, ids, primary), lib, EntryOf(rows[m]))
            == Some(SyncState(rows, nextId, ids + {rows[m].id}, primary || rows[m].isPrimary))
  {
    var x := rows[m];
    assert HasLocation(rows, lib, x.id);
    assert !PathTaken(rows, lib, x.path, Some(x.id));
    var updated := UpdatedLocations(rows, lib, x.id, x.path, x.includeSubdirectories, x.isPrimary);
    assert updated == rows;
  }

  /** Entry by entry, re-sending existing locations with their ids leaves the table as it is. */
  lemma {:induction false} ResendPrefix(t: LocationTable, lib: nat, m: nat)
    requires m <= |t.rows| && LocationIdsValid(t.rows, t.nextId) && UniqueLocationPaths(t.rows)
    ensures ApplyEntries(SyncState(t.rows, t.nextId, {}, false), lib, LocationEntriesOf(t.rows[..m], lib))
            == Some(SyncState(t.rows, t.nextId, IdsOf(t.rows[..m], lib), PrimaryIn(t.rows[..m], lib)))
    decreases m
  {
    if m == 0 {
      assert t.rows[..0] == [];
    } else {
      var pre := t.rows[..m - 1];
      assert t.rows[..m][..m - 1] == pre;
      ResendPrefix(t, lib, m - 1);
      var x := t.rows[m - 1];
      var es := LocationEntriesOf(pre, lib);
      if x.libraryId == lib {
        assert LocationEntriesOf(t.rows[..m], lib) == es + [EntryOf(x)];
        assert (es + [EntryOf(x)])[..|es|] == es;
        ResendStep(t.rows, t.nextId, lib, m - 1, IdsOf(pre, lib), PrimaryIn(pre, lib));
      } else {
        assert LocationEntriesOf(t.rows[..m], lib) == es;
        assert IdsOf(t.rows[..m], lib) == IdsOf(pre, lib);
        assert PrimaryIn(t.rows[..m], lib) == PrimaryIn(pre, lib);
      }
    }
  }

  /**
   * Corrected: when entries keep their ids (an `id` field the nested
   * serializer accepts on input), sending a library's locations back leaves
   * them as they are, apart from electing a primary when none is marked.
   */
  lemma ResendKeepsLocations(t: LocationTable, lib: nat)
    requires LocationIdsValid(t.rows, t.nextId) && UniqueLocationPaths(t.rows)
    ensures SyncedLocations(t, lib, LocationEntriesOf(t.rows, lib))
            == Synced(LocationTable(WithPrimary(t.rows, lib, PrimaryIn(t.rows, lib)), t.nextId))
    ensures PrimaryIn(t.rows, lib) ==> SyncedLocations(t, lib, LocationEntriesOf(t.rows, lib)) == Synced(t)
  {
    ResendPrefix(t, lib, |t.rows|);
    assert t.rows[..|t.rows|] == t.rows;
    PrunedAll(t.rows, lib, IdsOf(t.rows, lib));
  }
}
