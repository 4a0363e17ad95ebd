/**
 * `resolve_media_item` (apps/media_library/utils.py): find the media item a
 * classified file belongs to, creating it (and, for an episode, its show)
 * when no row matches. The item table is a sequence of rows; the result
 * names the row the file belongs to by its position.
 */
module Resolution {
  import opened Wrappers
  import opened Text
  import opened Models
  import opened Catalog
  import opened Classification

  datatype Resolution = Resolution(items: seq<Item>, nextId: nat, index: nat)

  /** A row as `MediaItem.objects.create` stores it (its `save()` fills the sort titles). */
  function NewItem(id: nat, lib: nat, parent: Option<nat>, t: ItemType, title: string,
                   year: Option<int>, season: Option<int>, episode: Option<int>): (r: Item)
    ensures r.id == id && r.libraryId == lib && r.parentId == parent && r.itemType == t
    ensures r.status == ItemPending && r.title == title && r.normalizedTitle == NormalizeTitle(Some(title))
    ensures r.releaseYear == year && r.seasonNumber == season && r.episodeNumber == episode
  {
    WithSortTitles(Item(id, lib, parent, t, ItemPending, title, title, NormalizeTitle(Some(title)),
                        year, season, episode, None, "", "", None, None, None, "", "", None, None, None, ""))
  }

  /** The filter `library=…, item_type=…, normalized_title=…`. */
  function TitleQuery(lib: nat, t: ItemType, norm: string): Item -> bool {
    (x: Item) => x.libraryId == lib && x.itemType == t && x.normalizedTitle == norm
  }

  /** The filter that looks an episode up under its show. */
  function EpisodeQuery(lib: nat, seriesId: nat, season: Option<int>, episode: Option<int>): Item -> bool {
    (x: Item) => x.libraryId == lib && x.itemType == Episode && x.parentId == Some(seriesId)
                 && x.seasonNumber == season && x.episodeNumber == episode
  }

  /** `classification.title or "Unknown"`. */
  function ResolvedTitle(c: ClassificationResult): (r: string)
    ensures r != ""
  {
    if c.title != "" then c.title else "Unknown"
  }

  /** The item type a classification resolves to: seasons, collections and others become `other`. */
  function ResolvedType(t: ItemType): ItemType {
    match t
    case Movie => Movie
    case Show => Show
    case Episode => Episode
    case _ => OtherType
  }

  /** `f"{n:02d}"`: at least two characters, zero-padded, the sign counting towards the width. */
  function Pad2(n: int): (r: string)
    ensures 0 <= n < 100 ==> |r| == 2 && IsDigit(r[0]) && IsDigit(r[1])
  {
    if 0 <= n < 10 then "0" + NatToString(n)
    else if n >= 0 then
      assert n >= 10 ==> NatToString(n) == NatToString(n / 10) + [DigitChar(n % 10)];
      NatToString(n)
    else IntToString(n)
  }

  function EpisodeLabel(season: int, episode: int): string {
    "S" + Pad2(season) + "E" + Pad2(episode)
  }

  lemma EpisodeLabelExample()
    ensures EpisodeLabel(1, 12) == "S01E12"
  {
    assert NatToString(12) == NatToString(1) + [DigitChar(2)];
  }

  /** The title a new episode row gets. */
  function EpisodeTitle(c: ClassificationResult, title: string): (r: string)
    ensures Truthy(c.episodeTitle) ==> r == c.episodeTitle.value
    ensures !Truthy(c.episodeTitle) && TruthyInt(c.season) && TruthyInt(c.episode) ==>
              r == EpisodeLabel(c.season.value, c.episode.value)
    ensures !Truthy(c.episodeTitle) && !(TruthyInt(c.season) && TruthyInt(c.episode)) ==> r == title
    ensures title != "" ==> r != ""
  {
    if Truthy(c.episodeTitle) then c.episodeTitle.value
    else if TruthyInt(c.season) && TruthyInt(c.episode) then EpisodeLabel(c.season.value, c.episode.value)
    else title
  }

  /** The show and other branches: the first row with this type and normalized title, or a new one. */
  function FindOrCreate(items: seq<Item>, nextId: nat, lib: nat, t: ItemType, title: string): Resolution {
    var m := FirstWhere(items, TitleQuery(lib, t, NormalizeTitle(Some(title))));
    if m.Some? then Resolution(items, nextId, m.value)
    else Resolution(items + [NewItem(nextId, lib, None, t, title, None, None, None)], nextId + 1, |items|)
  }

  /** The movie branch: a same-year match first, then any match, whose year is then synced. */
  function ResolveMovie(items: seq<Item>, nextId: nat, lib: nat, c: ClassificationResult): Resolution {
    var title := ResolvedTitle(c);
    var q := TitleQuery(lib, Movie, NormalizeTitle(Some(title)));
    var sameYear := if TruthyInt(c.year) then FirstWhere(items, (x: Item) => q(x) && x.releaseYear == c.year) else None;
    var m := if sameYear.Some? then sameYear else FirstWhere(items, q);
    if m.Some? then
      var k := m.value;
      if TruthyInt(c.year) && items[k].releaseYear != c.year then
        Resolution(items[k := items[k].(releaseYear := c.year)], nextId, k)
      else Resolution(items, nextId, k)
    else Resolution(items + [NewItem(nextId, lib, None, Movie, title, c.year, None, None)], nextId + 1, |items|)
  }

  /** The show an episode belongs to: found or created by its series title. */
  function SeriesOf(items: seq<Item>, nextId: nat, lib: nat, c: ClassificationResult): Resolution {
    FindOrCreate(items, nextId, lib, Show, OrElse(c.seriesTitle, ResolvedTitle(c)))
  }

  /** The episode branch. */
  function ResolveEpisode(items: seq<Item>, nextId: nat, lib: nat, c: ClassificationResult): Resolution {
    var s := SeriesOf(items, nextId, lib, c);
    if s.index < |s.items| then
      var seriesId := s.items[s.index].id;
      var e := FirstWhere(s.items, EpisodeQuery(lib, seriesId, c.season, c.episode));
      if e.Some? then
        var k := e.value;
        if Truthy(c.episodeTitle) && s.items[k].title == "" then
          Resolution(s.items[k := s.items[k].(title := c.episodeTitle.value)], s.nextId, k)
        else Resolution(s.items, s.nextId, k)
      else
        Resolution(s.items + [NewItem(s.nextId, lib, Some(seriesId), Episode, EpisodeTitle(c, ResolvedTitle(c)),
                                      c.year, c.season, c.episode)], s.nextId + 1, |s.items|)
    else s
  }

  lemma FindOrCreateShape(items: seq<Item>, nextId: nat, lib: nat, t: ItemType, title: string)
    ensures FindOrCreate(items, nextId, lib, t, title).index < |FindOrCreate(items, nextId, lib, t, title).items|
    ensures var r := FindOrCreate(items, nextId, lib, t, title);
            (|r.items| == |items| || |r.items| == |items| + 1)
            && forall i :: 0 <= i < |items| ==> r.items[i] == items[i]
    ensures var r := FindOrCreate(items, nextId, lib, t, title);
            r.items[r.index].libraryId == lib && r.items[r.index].itemType == t
            && r.items[r.index].normalizedTitle == NormalizeTitle(Some(title))
    ensures var r := FindOrCreate(items, nextId, lib, t, title);
            ItemIdsValid(items, nextId) ==> ItemIdsValid(r.items, r.nextId)
    ensures var r := FindOrCreate(items, nextId, lib, t, title);
            |r.items| == |items| + 1 <==> FirstWhere(items, TitleQuery(lib, t, NormalizeTitle(Some(title)))).None?
  {
    var norm := NormalizeTitle(Some(title));
    var m := FirstWhere(items, TitleQuery(lib, t, norm));
    if m.None? {
      var x := NewItem(nextId, lib, None, t, title, None, None, None);
      assert FindOrCreate(items, nextId, lib, t, title) == Resolution(items + [x], nextId + 1, |items|);
      if ItemIdsValid(items, nextId) {
        ItemIdsValidAppend(items, nextId, x);
      }
    } else {
      assert FindOrCreate(items, nextId, lib, t, title) == Resolution(items, nextId, m.value);
    }
  }

  /**
   * `resolve_media_item`. `target` is the position of the rescan's target
   * item, which is returned as it is.
   */
  function Resolve(items: seq<Item>, nextId: nat, lib: nat, c: ClassificationResult, target: Option<nat>): (r: Resolution)
    requires target.Some? ==> target.value < |items|
    ensures target.Some? ==> r == Resolution(items, nextId, target.value)
    ensures r.index < |r.items| && |items| <= |r.items| <= |items| + 2
    ensures ItemIdsValid(items, nextId) ==> ItemIdsValid(r.items, r.nextId)
    ensures forall i :: 0 <= i < |items| ==>
              r.items[i].id == items[i].id && r.items[i].libraryId == items[i].libraryId
              && r.items[i].itemType == items[i].itemType && r.items[i].normalizedTitle == items[i].normalizedTitle
              && r.items[i].parentId == items[i].parentId
    ensures target.None? ==>
              r.items[r.index].libraryId == lib && r.items[r.index].itemType == ResolvedType(c.detectedType)
    ensures target.None? && c.detectedType != Episode ==>
              r.items[r.index].normalizedTitle == NormalizeTitle(Some(ResolvedTitle(c)))
              && (|r.items| == |items| + 1 <==>
                  FirstWhere(items, TitleQuery(lib, ResolvedType(c.detectedType), NormalizeTitle(Some(ResolvedTitle(c))))).None?)
  {
    if target.Some? then Resolution(items, nextId, target.value)
    else
      match c.detectedType
      case Movie =>
        MovieShape(items, nextId, lib, c);
        ResolveMovie(items, nextId, lib, c)
      case Show =>
        FindOrCreateShape(items, nextId, lib, Show, ResolvedTitle(c));
        FindOrCreate(items, nextId, lib, Show, ResolvedTitle(c))
      case Episode =>
        EpisodeShape(items, nextId, lib, c);
        ResolveEpisode(items, nextId, lib, c)
      case _ =>
        FindOrCreateShape(items, nextId, lib, OtherType, ResolvedTitle(c));
        FindOrCreate(items, nextId, lib, OtherType, ResolvedTitle(c))
  }

  lemma MovieShape(items: seq<Item>, nextId: nat, lib: nat, c: ClassificationResult)
    ensures var r := ResolveMovie(items, nextId, lib, c);
            r.index < |r.items| && (|r.items| == |items| || |r.items| == |items| + 1)
            && (forall i :: 0 <= i < |items| ==> r.items[i] == items[i].(releaseYear := r.items[i].releaseYear))
            && r.items[r.index].libraryId == lib && r.items[r.index].itemType == Movie
            && r.items[r.index].normalizedTitle == NormalizeTitle(Some(ResolvedTitle(c)))
            && (ItemIdsValid(items, nextId) ==> ItemIdsValid(r.items, r.nextId))
            && (|r.items| == |items| + 1 <==> FirstWhere(items, TitleQuery(lib, Movie, NormalizeTitle(Some(ResolvedTitle(c))))).None?)
  {
    var title := ResolvedTitle(c);
    var q := TitleQuery(lib, Movie, NormalizeTitle(Some(title)));
    var qy := (x: Item) => q(x) && x.releaseYear == c.year;
    if TruthyInt(c.year) && FirstWhere(items, qy).Some? {
      var k := FirstWhere(items, qy).value;
      assert q(items[k]);
    }
    if FirstWhere(items, q).None? {
      if TruthyInt(c.year) {
        assert FirstWhere(items, qy).None? by {
          assert forall j :: 0 <= j < |items| ==> !qy(items[j]);
        }
      }
      if ItemIdsValid(items, nextId) {
        ItemIdsValidAppend(items, nextId, NewItem(nextId, lib, None, Movie, title, c.year, None, None));
      }
    }
  }

  /** The three outcomes of the episode lookup under the show `s` found or created first. */
  lemma EpisodeCases(items: seq<Item>, nextId: nat, lib: nat, c: ClassificationResult)
    ensures var s := SeriesOf(items, nextId, lib, c);
            var r := ResolveEpisode(items, nextId, lib, c);
            s.index < |s.items| &&
            var seriesId := s.items[s.index].id;
            var e := FirstWhere(s.items, EpisodeQuery(lib, seriesId, c.season, c.episode));
            (e.Some? && Truthy(c.episodeTitle) && s.items[e.value].title == "" ==>
               r == Resolution(s.items[e.value := s.items[e.value].(title := c.episodeTitle.value)], s.nextId, e.value))
            && (e.Some? && !(Truthy(c.episodeTitle) && s.items[e.value].title == "") ==>
               r == Resolution(s.items, s.nextId, e.value))
            && (e.None? ==>
               r == Resolution(s.items + [NewItem(s.nextId, lib, Some(seriesId), Episode, EpisodeTitle(c, ResolvedTitle(c)),
                                                  c.year, c.season, c.episode)], s.nextId + 1, |s.items|))
  {
    FindOrCreateShape(items, nextId, lib, Show, OrElse(c.seriesTitle, ResolvedTitle(c)));
  }

  lemma EpisodeShape(items: seq<Item>, nextId: nat, lib: nat, c: ClassificationResult)
    ensures var r := ResolveEpisode(items, nextId, lib, c);
            r.index < |r.items| && |items| <= |r.items| <= |items| + 2
    ensures var r := ResolveEpisode(items, nextId, lib, c);
            forall i :: 0 <= i < |items| ==> r.items[i] == items[i].(title := r.items[i].title)
    ensures var r := ResolveEpisode(items, nextId, lib, c);
            r.index < |r.items| && r.items[r.index].libraryId == lib && r.items[r.index].itemType == Episode
    ensures var r := ResolveEpisode(items, nextId, lib, c);
            ItemIdsValid(items, nextId) ==> ItemIdsValid(r.items, r.nextId)
  {
    var s := SeriesOf(items, nextId, lib, c);
    FindOrCreateShape(items, nextId, lib, Show, OrElse(c.seriesTitle, ResolvedTitle(c)));
    EpisodeCases(items, nextId, lib, c);
    var seriesId := s.items[s.index].id;
    var e := FirstWhere(s.items, EpisodeQuery(lib, seriesId, c.season, c.episode));
    if e.Some? {
      var k := e.value;
      assert EpisodeQuery(lib, seriesId, c.season, c.episode)(s.items[k]);
      if Truthy(c.episodeTitle) && s.items[k].title == "" {
        RetitledShape(items, nextId, s.items, s.nextId, k, c.episodeTitle.value);
      }
    } else {
      var x := NewItem(s.nextId, lib, Some(seriesId), Episode, EpisodeTitle(c, ResolvedTitle(c)), c.year, c.season, c.episode);
      if ItemIdsValid(items, nextId) {
        ItemIdsValidAppend(s.items, s.nextId, x);
      }
    }
  }

  /** Filling in one row's title keeps the table's keys and every other field. */
  lemma RetitledShape(items: seq<Item>, nextId: nat, rows: seq<Item>, rowsNext: nat, k: nat, title: string)
    requires k < |rows| && |items| <= |rows| && forall i :: 0 <= i < |items| ==> rows[i] == items[i]
    requires ItemIdsValid(items, nextId) ==> ItemIdsValid(rows, rowsNext)
    ensures var r := rows[k := rows[k].(title := title)];
            (forall i :: 0 <= i < |items| ==> r[i] == items[i].(title := r[i].title))
            && (ItemIdsValid(items, nextId) ==> ItemIdsValid(r, rowsNext))
  {
    var r := rows[k := rows[k].(title := title)];
    assert forall i :: 0 <= i < |r| ==> r[i].id == rows[i].id;
  }

  /** An episode hangs under a show of the same library whose normalized title is the series title's. */
  lemma EpisodeParent(items: seq<Item>, nextId: nat, lib: nat, c: ClassificationResult)
    requires ItemIdsValid(items, nextId)
    requires c.detectedType == Episode
    ensures var r := Resolve(items, nextId, lib, c, None);
            var it := r.items[r.index];
            it.parentId.Some? && ItemIndex(r.items, it.parentId.value).Some?
            && var p := r.items[ItemIndex(r.items, it.parentId.value).value];
               p.itemType == Show && p.libraryId == lib
               && p.normalizedTitle == NormalizeTitle(Some(OrElse(c.seriesTitle, ResolvedTitle(c))))
  {
    var s := SeriesOf(items, nextId, lib, c);
    var st := OrElse(c.seriesTitle, ResolvedTitle(c));
    FindOrCreateShape(items, nextId, lib, Show, st);
    EpisodeCases(items, nextId, lib, c);
    EpisodeShape(items, nextId, lib, c);
    var seriesId := s.items[s.index].id;
    var r := ResolveEpisode(items, nextId, lib, c);
    var e := FirstWhere(s.items, EpisodeQuery(lib, seriesId, c.season, c.episode));
    assert r.items[r.index].parentId == Some(seriesId) by {
      if e.Some? {
        assert EpisodeQuery(lib, seriesId, c.season, c.episode)(s.items[e.value]);
      }
    }
    assert r.items[s.index] == s.items[s.index].(title := r.items[s.index].title);
    ItemIndexUnique(r.items, r.nextId, s.index);
  }

  // ---------------------------------------------------------------------------
  // Running the resolution twice

  lemma FindOrCreateIdempotent(items: seq<Item>, nextId: nat, lib: nat, t: ItemType, title: string)
    ensures var r := FindOrCreate(items, nextId, lib, t, title);
            FindOrCreate(r.items, r.nextId, lib, t, title) == r
  {
    var q := TitleQuery(lib, t, NormalizeTitle(Some(title)));
    if FirstWhere(items, q).None? {
      FirstWhereAppend(items, NewItem(nextId, lib, None, t, title, None, None, None), q);
    }
  }

  lemma MovieIdempotent(items: seq<Item>, nextId: nat, lib: nat, c: ClassificationResult)
    ensures var r := ResolveMovie(items, nextId, lib, c);
            ResolveMovie(r.items, r.nextId, lib, c) == r
  {
    var title := ResolvedTitle(c);
    var q := TitleQuery(lib, Movie, NormalizeTitle(Some(title)));
    var qy := (x: Item) => q(x) && x.releaseYear == c.year;
    var r := ResolveMovie(items, nextId, lib, c);
    var sameYear := if TruthyInt(c.year) then FirstWhere(items, qy) else None;
    if sameYear.Some? {
      assert r.items == items;
    } else if FirstWhere(items, q).Some? {
      var k := FirstWhere(items, q).value;
      if TruthyInt(c.year) {
        assert r.items == items[k := items[k].(releaseYear := c.year)];
        assert forall j :: 0 <= j < k ==> !qy(r.items[j]);
        FirstWhereIs(r.items, qy, k);
        FirstWhereUpdate(items, k, items[k].(releaseYear := c.year), q);
      }
    } else {
      var x := NewItem(nextId, lib, None, Movie, title, c.year, None, None);
      FirstWhereAppend(items, x, q);
      if TruthyInt(c.year) {
        assert forall j :: 0 <= j < |items| ==> !qy(items[j]);
        FirstWhereAppend(items, x, qy);
      }
    }
  }

  lemma EpisodeIdempotent(items: seq<Item>, nextId: nat, lib: nat, c: ClassificationResult)
    ensures var r := ResolveEpisode(items, nextId, lib, c);
            ResolveEpisode(r.items, r.nextId, lib, c) == r
  {
    var st := OrElse(c.seriesTitle, ResolvedTitle(c));
    var qs := TitleQuery(lib, Show, NormalizeTitle(Some(st)));
    var s := SeriesOf(items, nextId, lib, c);
    FindOrCreateShape(items, nextId, lib, Show, st);
    FindOrCreateIdempotent(items, nextId, lib, Show, st);
    assert FirstWhere(s.items, qs) == Some(s.index);
    var seriesId := s.items[s.index].id;
    var eq := EpisodeQuery(lib, seriesId, c.season, c.episode);
    var e := FirstWhere(s.items, eq);
    EpisodeCases(items, nextId, lib, c);
    var r := ResolveEpisode(items, nextId, lib, c);
    if e.Some? {
      var k := e.value;
      if Truthy(c.episodeTitle) && s.items[k].title == "" {
        var x := s.items[k].(title := c.episodeTitle.value);
        FirstWhereUpdate(s.items, k, x, qs);
        FirstWhereUpdate(s.items, k, x, eq);
        EpisodeFoundAgain(s.items[k := x], s.nextId, lib, c, s.index, k);
      } else {
        EpisodeFoundAgain(s.items, s.nextId, lib, c, s.index, k);
      }
    } else {
      var x := NewItem(s.nextId, lib, Some(seriesId), Episode, EpisodeTitle(c, ResolvedTitle(c)), c.year, c.season, c.episode);
      FirstWhereAppend(s.items, x, qs);
      FirstWhereAppend(s.items, x, eq);
      assert (s.items + [x])[s.index] == s.items[s.index];
      EpisodeFoundAgain(s.items + [x], s.nextId + 1, lib, c, s.index, |s.items|);
    }
  }

  /** With the show at `si` and the episode at `k` already there (and titled), the episode branch only finds them. */
  lemma EpisodeFoundAgain(items: seq<Item>, nextId: nat, lib: nat, c: ClassificationResult, si: nat, k: nat)
    requires si < |items| && k < |items|
    requires FirstWhere(items, TitleQuery(lib, Show, NormalizeTitle(Some(OrElse(c.seriesTitle, ResolvedTitle(c)))))) == Some(si)
    requires FirstWhere(items, EpisodeQuery(lib, items[si].id, c.season, c.episode)) == Some(k)
    requires !(Truthy(c.episodeTitle) && items[k].title == "")
    ensures ResolveEpisode(items, nextId, lib, c) == Resolution(items, nextId, k)
  {
    assert SeriesOf(items, nextId, lib, c) == Resolution(items, nextId, si);
  }

  /**
   * Resolving the same classification again finds the row the first call
   * returned and changes nothing: no second item is created.
   */
  lemma ResolveIdempotent(items: seq<Item>, nextId: nat, lib: nat, c: ClassificationResult)
    ensures var r := Resolve(items, nextId, lib, c, None);
            Resolve(r.items, r.nextId, lib, c, None) == r
  {
    match c.detectedType
    case Movie => MovieIdempotent(items, nextId, lib, c);
    case Show => FindOrCreateIdempotent(items, nextId, lib, Show, ResolvedTitle(c));
    case Episode => EpisodeIdempotent(items, nextId, lib, c);
    case _ => FindOrCreateIdempotent(items, nextId, lib, OtherType, ResolvedTitle(c));
  }

  /** A movie with a year prefers the first same-year row over earlier rows of another year. */
  lemma MoviePrefersSameYear(items: seq<Item>, nextId: nat, lib: nat, c: ClassificationResult, k: nat)
    requires c.detectedType == Movie && TruthyInt(c.year)
    requires var q := TitleQuery(lib, Movie, NormalizeTitle(Some(ResolvedTitle(c))));
             k < |items| && q(items[k]) && items[k].releaseYear == c.year
             && forall j :: 0 <= j < k ==> !(q(items[j]) && items[j].releaseYear == c.year)
    ensures Resolve(items, nextId, lib, c, None) == Resolution(items, nextId, k)
  {
    var q := TitleQuery(lib, Movie, NormalizeTitle(Some(ResolvedTitle(c))));
    FirstWhereIs(items, (x: Item) => q(x) && x.releaseYear == c.year, k);
  }

  /** A movie with a year matched by a row of another year carries the year over to that row. */
  lemma MovieYearSynced(items: seq<Item>, nextId: nat, lib: nat, c: ClassificationResult)
    requires c.detectedType == Movie && TruthyInt(c.year)
    ensures var r := Resolve(items, nextId, lib, c, None);
            r.items[r.index].releaseYear == c.year
  {
  }
}
