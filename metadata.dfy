/**
 * apps/media_library/metadata.py: the TMDB settings, the shaping of a TMDB
 * movie or TV response into a metadata record, and `apply_metadata`. The
 * TMDB calls and the cache are not modelled; their answers are inputs.
 */
module Metadata {
  import opened Wrappers
  import opened Text
  import opened Models

  const ImageBase: string := "https://image.tmdb.org/t/p/original"

  /** `get_tmdb_api_key`: the stored setting, stripped, else the one from the environment. */
  function TmdbApiKey(setting: Option<string>, fromEnvironment: Option<string>): (r: Option<string>)
    ensures Truthy(setting) ==> r == Some(Strip(setting.value))
    ensures !Truthy(setting) ==> r == fromEnvironment
  {
    if Truthy(setting) then Some(Strip(setting.value)) else fromEnvironment
  }

  /** The client library's module-level key, which `_configure_tmdb` sets. */
  class TmdbClient {
    var apiKey: Option<string>

    constructor (key: Option<string>)
      ensures apiKey == key
    {
      apiKey := key;
    }

    /** `_configure_tmdb`: false without a key; otherwise installs it (only when it differs). */
    method Configure(key: Option<string>) returns (ok: bool)
      modifies this
      ensures ok <==> Truthy(key)
      ensures ok ==> apiKey == key
      ensures !ok ==> apiKey == old(apiKey)
    {
      if !Truthy(key) {
        return false;
      }
      if apiKey != key {
        apiKey := key;
      }
      return true;
    }
  }

  /** `build_image_url`. */
  function BuildImageUrl(path: Option<string>): (r: Option<string>)
    ensures !Truthy(path) <==> r.None?
    ensures Truthy(path) ==> r == Some(ImageBase + path.value)
  {
    if Truthy(path) then Some(ImageBase + path.value) else None
  }

  /** The path back from an image URL: the part after the base. */
  function ImagePath(url: string): Option<string> {
    if |url| > |ImageBase| && url[..|ImageBase|] == ImageBase then Some(url[|ImageBase|..]) else None
  }

  /** Building a URL and reading its path back gives the path: distinct paths give distinct URLs. */
  lemma BuildImageUrlInverse(path: Option<string>)
    requires Truthy(path)
    ensures ImagePath(BuildImageUrl(path).value) == path
  {
    var url := ImageBase + path.value;
    assert url[..|ImageBase|] == ImageBase;
    assert url[|ImageBase|..] == path.value;
  }

  // ---------------------------------------------------------------------------
  // Response shaping in fetch_tmdb_metadata

  /** The fields of a TMDB movie or TV `info()` answer the shaping reads. */
  datatype TmdbInfo = TmdbInfo(
    genreNames: seq<Option<string>>,
    runtime: Option<int>,
    episodeRunTime: Option<seq<int>>,
    releaseDate: Option<string>,
    firstAirDate: Option<string>,
    imdbId: Option<string>,
    title: Option<string>,
    name: Option<string>,
    overview: Option<string>,
    tagline: Option<string>,
    posterPath: Option<string>,
    backdropPath: Option<string>)

  datatype CrewMember = CrewMember(name: Option<string>, job: Option<string>)

  /** The `credits()` answer: cast names and crew members, in TMDB's order. */
  datatype TmdbCredits = TmdbCredits(cast: seq<Option<string>>, crew: seq<CrewMember>)

  /** The metadata dictionary `fetch_tmdb_metadata` returns and `apply_metadata` reads. */
  datatype MetadataRecord = MetadataRecord(
    tmdbId: Option<string>,
    imdbId: Option<string>,
    title: Option<string>,
    synopsis: Option<string>,
    tagline: Option<string>,
    releaseYear: Option<int>,
    genres: Option<seq<string>>,
    runtimeMinutes: Option<int>,
    poster: Option<string>,
    backdrop: Option<string>,
    cast: Option<seq<string>>,
    crew: Option<seq<string>>)

  /** The truthy names, in order. */
  function Names(xs: seq<Option<string>>): (r: seq<string>)
    ensures |r| <= |xs|
    ensures forall i :: 0 <= i < |r| ==> r[i] != ""
    ensures forall n :: n in r <==> n != "" && Some(n) in xs
    decreases |xs|
  {
    if xs == [] then []
    else
      var init := xs[..|xs| - 1];
      var rest := Names(init);
      assert xs == init + [xs[|xs| - 1]];
      rest + (if Truthy(xs[|xs| - 1]) then [xs[|xs| - 1].value] else [])
  }

  function Take<T>(xs: seq<T>, n: nat): (r: seq<T>)
    ensures |r| == if |xs| < n then |xs| else n
    ensures r <= xs
  {
    if |xs| < n then xs else xs[..n]
  }

  function CrewCredit(m: CrewMember): string
    requires Truthy(m.name) && Truthy(m.job)
  {
    m.name.value + " (" + m.job.value + ")"
  }

  /** "name (job)" for each member that has both, in order. */
  function CrewOf(members: seq<CrewMember>): (r: seq<string>)
    ensures |r| <= |members|
    decreases |members|
  {
    if members == [] then []
    else
      var m := members[|members| - 1];
      CrewOf(members[..|members| - 1]) + (if Truthy(m.name) && Truthy(m.job) then [CrewCredit(m)] else [])
  }

  /** Every crew credit is "name (job)" of a member that has both. */
  lemma {:induction false} CrewOfEntries(members: seq<CrewMember>)
    ensures forall i :: 0 <= i < |CrewOf(members)| ==>
              exists j :: 0 <= j < |members| && Truthy(members[j].name) && Truthy(members[j].job)
                          && CrewOf(members)[i] == CrewCredit(members[j])
    ensures (forall j :: 0 <= j < |members| ==> Truthy(members[j].name) && Truthy(members[j].job)) ==>
              |CrewOf(members)| == |members|
    decreases |members|
  {
    if members != [] {
      var n := |members| - 1;
      var init := members[..n];
      CrewOfEntries(init);
      assert forall j :: 0 <= j < |init| ==> init[j] == members[j];
      var m := members[n];
      assert CrewOf(members) == CrewOf(init) + (if Truthy(m.name) && Truthy(m.job) then [CrewCredit(m)] else []);
      forall i | 0 <= i < |CrewOf(members)|
        ensures exists j :: 0 <= j < |members| && Truthy(members[j].name) && Truthy(members[j].job)
                            && CrewOf(members)[i] == CrewCredit(members[j])
      {
        if i < |CrewOf(init)| {
          var j :| 0 <= j < |init| && Truthy(init[j].name) && Truthy(init[j].job) && CrewOf(init)[i] == CrewCredit(init[j]);
          assert members[j] == init[j] && CrewOf(members)[i] == CrewOf(init)[i];
          assert Truthy(members[j].name) && Truthy(members[j].job) && CrewOf(members)[i] == CrewCredit(members[j]);
        } else {
          assert Truthy(m.name) && Truthy(m.job) && CrewOf(members)[i] == CrewCredit(members[n]);
        }
      }
    } else {
      assert CrewOf(members) == [];
    }
  }

  /** The crew loop over the first fifteen members. */
  method ShapeCrew(members: seq<CrewMember>) returns (crew: seq<string>)
    ensures crew == CrewOf(Take(members, 15))
    ensures |crew| <= 15
  {
    var first := Take(members, 15);
    crew := [];
    var i := 0;
    while i < |first|
      invariant 0 <= i <= |first| && crew == CrewOf(first[..i])
    {
      assert first[..i + 1][..i] == first[..i];
      var m := first[i];
      if Truthy(m.name) && Truthy(m.job) {
        crew := crew + [m.name.value + " (" + m.job.value + ")"];
      }
      i := i + 1;
    }
    assert first[..i] == first;
  }

  /** A movie's runtime as given; a show's is its first episode run time. */
  function ShapedRuntime(itemType: ItemType, info: TmdbInfo): (r: Option<int>)
    ensures itemType == Movie ==> r == info.runtime
    ensures itemType == Show ==> (r.Some? <==> info.episodeRunTime.Some? && info.episodeRunTime.value != [])
    ensures itemType == Show && r.Some? ==> r.value == info.episodeRunTime.value[0]
    ensures itemType != Movie && itemType != Show ==> r.None?
  {
    if itemType == Movie then info.runtime
    else if itemType == Show then
      if info.episodeRunTime.Some? && info.episodeRunTime.value != [] then Some(info.episodeRunTime.value[0]) else None
    else None
  }

  /** The release year: parsed from the release (or first air) date, else the item's own. */
  function ShapedYear(it: Item, info: TmdbInfo, parseYear: string -> Option<int>): (r: Option<int>)
    ensures var date := if Truthy(info.releaseDate) then info.releaseDate else info.firstAirDate;
            (Truthy(date) && parseYear(date.value).Some? ==> r == parseYear(date.value))
            && (!(Truthy(date) && parseYear(date.value).Some?) ==> r == it.releaseYear)
  {
    var date := if Truthy(info.releaseDate) then info.releaseDate else info.firstAirDate;
    if Truthy(date) then
      match parseYear(date.value)
      case Some(y) => Some(y)
      case None => it.releaseYear
    else it.releaseYear
  }

  /** The metadata record built from a TMDB match `tmdbId` and its info and credits. */
  function ShapedMetadata(it: Item, tmdbId: nat, info: TmdbInfo, credits: TmdbCredits,
                          parseYear: string -> Option<int>): (r: MetadataRecord)
    ensures r.tmdbId == Some(NatToString(tmdbId))
    ensures r.title.Some? && r.synopsis.Some? && r.tagline.Some?
    ensures Truthy(info.title) ==> r.title == info.title
    ensures !Truthy(info.title) && Truthy(info.name) ==> r.title == info.name
    ensures !Truthy(info.title) && !Truthy(info.name) ==> r.title == Some(it.title)
    ensures r.genres == Some(Names(info.genreNames))
    ensures r.cast.Some? && |r.cast.value| <= 10 && r.cast.value == Names(Take(credits.cast, 10))
    ensures r.crew.Some? && |r.crew.value| <= 15 && r.crew.value == CrewOf(Take(credits.crew, 15))
    ensures r.runtimeMinutes == ShapedRuntime(it.itemType, info)
    ensures r.releaseYear == ShapedYear(it, info, parseYear)
    ensures r.poster == BuildImageUrl(info.posterPath) && r.backdrop == BuildImageUrl(info.backdropPath)
  {
    MetadataRecord(
      Some(NatToString(tmdbId)),
      if Truthy(info.imdbId) then info.imdbId else it.imdbId,
      Some(OrElse(info.title, OrElse(info.name, it.title))),
      Some(OrElse(info.overview, it.synopsis)),
      Some(OrElse(info.tagline, it.tagline)),
      ShapedYear(it, info, parseYear),
      Some(Names(info.genreNames)),
      ShapedRuntime(it.itemType, info),
      BuildImageUrl(info.posterPath),
      BuildImageUrl(info.backdropPath),
      Some(Names(Take(credits.cast, 10))),
      Some(CrewOf(Take(credits.crew, 15))))
  }

  /**
   * `fetch_tmdb_metadata` after the cache: a search answer (the ids of the
   * results, or a failure) and a details answer (info and credits, or a failure).
   */
  function FetchedMetadata(configured: bool, it: Item, search: Option<seq<Option<nat>>>,
                           details: Option<(TmdbInfo, TmdbCredits)>, parseYear: string -> Option<int>): (r: Option<MetadataRecord>)
    ensures r.Some? <==> configured && (it.itemType == Movie || it.itemType == Show)
                         && search.Some? && search.value != [] && TruthyInt(search.value[0]) && details.Some?
    ensures r.Some? ==> r.value == ShapedMetadata(it, search.value[0].value, details.value.0, details.value.1, parseYear)
  {
    if !configured then None
    else if !(it.itemType == Movie || it.itemType == Show) then None
    else if search.None? || search.value == [] then None
    else if !TruthyInt(search.value[0]) then None
    else if details.None? then None
    else Some(ShapedMetadata(it, search.value[0].value, details.value.0, details.value.1, parseYear))
  }

  // ---------------------------------------------------------------------------
  // apply_metadata

  const MinuteMs := 60 * 1000

  predicate TruthySeq(s: Option<seq<string>>) {
    s.Some? && s.value != []
  }

  /** An incoming string replaces the stored one only when truthy and different. */
  function Take1(cur: string, incoming: Option<string>): string {
    if Truthy(incoming) && incoming.value != cur then incoming.value else cur
  }

  function TakeOpt(cur: Option<string>, incoming: Option<string>): Option<string> {
    if Truthy(incoming) && incoming != cur then incoming else cur
  }

  function TakeSeq(cur: Option<seq<string>>, incoming: Option<seq<string>>): Option<seq<string>> {
    if TruthySeq(incoming) && incoming != cur then incoming else cur
  }

  function TakeYear(cur: Option<int>, incoming: Option<int>): Option<int> {
    if TruthyInt(incoming) && incoming != cur then incoming else cur
  }

  function TakeRuntime(cur: Option<int>, minutes: Option<int>): Option<int> {
    if TruthyInt(minutes) && cur != Some(minutes.value * MinuteMs) then Some(minutes.value * MinuteMs) else cur
  }

  /** The twelve fields `apply_metadata` compares and writes. */
  datatype MergedFields = MergedFields(
    tmdbId: Option<string>, imdbId: Option<string>, title: string, synopsis: string, tagline: string,
    releaseYear: Option<int>, runtimeMs: Option<int>, genres: Option<seq<string>>, cast: Option<seq<string>>,
    crew: Option<seq<string>>, posterUrl: string, backdropUrl: string)

  function FieldsOf(it: Item): MergedFields {
    MergedFields(it.tmdbId, it.imdbId, it.title, it.synopsis, it.tagline, it.releaseYear, it.runtimeMs,
                 it.genres, it.cast, it.crew, it.posterUrl, it.backdropUrl)
  }

  function WithFields(it: Item, f: MergedFields): Item {
    it.(tmdbId := f.tmdbId, imdbId := f.imdbId, title := f.title, synopsis := f.synopsis, tagline := f.tagline,
        releaseYear := f.releaseYear, runtimeMs := f.runtimeMs, genres := f.genres, cast := f.cast, crew := f.crew,
        posterUrl := f.posterUrl, backdropUrl := f.backdropUrl)
  }

  function MergedInto(f: MergedFields, md: MetadataRecord): MergedFields {
    MergedFields(TakeOpt(f.tmdbId, md.tmdbId), TakeOpt(f.imdbId, md.imdbId), Take1(f.title, md.title),
                 Take1(f.synopsis, md.synopsis), Take1(f.tagline, md.tagline), TakeYear(f.releaseYear, md.releaseYear),
                 TakeRuntime(f.runtimeMs, md.runtimeMinutes), TakeSeq(f.genres, md.genres), TakeSeq(f.cast, md.cast),
                 TakeSeq(f.crew, md.crew), Take1(f.posterUrl, md.poster), Take1(f.backdropUrl, md.backdrop))
  }

  datatype AssetType = Poster | Backdrop

  /** One `ArtworkAsset` update_or_create: (item, type, source "tmdb") gets this external URL. */
  datatype ArtworkWrite = ArtworkWrite(asset: AssetType, url: string)

  datatype Applied = Applied(item: Item, changed: bool, artwork: seq<ArtworkWrite>)

  function ArtworkFor(md: MetadataRecord): seq<ArtworkWrite> {
    (if Truthy(md.poster) then [ArtworkWrite(Poster, md.poster.value)] else [])
    + (if Truthy(md.backdrop) then [ArtworkWrite(Backdrop, md.backdrop.value)] else [])
  }

  /** `apply_metadata(media_item, metadata)`; `now` is the sync time. A change saves, which runs `ensure_sort_title`. */
  function AppliedMetadata(it: Item, md: MetadataRecord, now: int): Applied {
    var f := MergedInto(FieldsOf(it), md);
    var changed := f != FieldsOf(it);
    var merged := WithFields(it, f);
    var saved := if changed then WithSortTitles(merged.(metadataLastSyncedAt := Some(now), metadataSource := "tmdb")) else it;
    Applied(saved, changed, ArtworkFor(md))
  }

  /**
   * A field is overwritten only by a truthy incoming value that differs;
   * a missing or falsy one leaves it as it is.
   */
  lemma AppliedFieldsRule(it: Item, md: MetadataRecord, now: int)
    ensures var r := AppliedMetadata(it, md, now).item;
            (r.title != it.title ==> Truthy(md.title) && r.title == md.title.value)
            && (!Truthy(md.title) ==> r.title == it.title)
            && (r.synopsis != it.synopsis ==> Truthy(md.synopsis) && r.synopsis == md.synopsis.value)
            && (!Truthy(md.synopsis) ==> r.synopsis == it.synopsis)
            && (r.tagline != it.tagline ==> Truthy(md.tagline) && r.tagline == md.tagline.value)
            && (r.posterUrl != it.posterUrl ==> Truthy(md.poster) && r.posterUrl == md.poster.value)
            && (!Truthy(md.poster) ==> r.posterUrl == it.posterUrl)
            && (r.backdropUrl != it.backdropUrl ==> Truthy(md.backdrop) && r.backdropUrl == md.backdrop.value)
            && (r.tmdbId != it.tmdbId ==> Truthy(md.tmdbId) && r.tmdbId == md.tmdbId)
            && (r.imdbId != it.imdbId ==> Truthy(md.imdbId) && r.imdbId == md.imdbId)
            && (r.releaseYear != it.releaseYear ==> TruthyInt(md.releaseYear) && r.releaseYear == md.releaseYear)
            && (r.genres != it.genres ==> TruthySeq(md.genres) && r.genres == md.genres)
            && (r.cast != it.cast ==> TruthySeq(md.cast) && r.cast == md.cast)
            && (r.crew != it.crew ==> TruthySeq(md.crew) && r.crew == md.crew)
  {
  }

  /** The saved item carries exactly the merged fields, whether or not anything changed. */
  lemma AppliedFields(it: Item, md: MetadataRecord, now: int)
    ensures FieldsOf(AppliedMetadata(it, md, now).item) == MergedInto(FieldsOf(it), md)
  {
    var f := MergedInto(FieldsOf(it), md);
    if f != FieldsOf(it) {
      var merged := WithFields(it, f);
      assert FieldsOf(WithSortTitles(merged.(metadataLastSyncedAt := Some(now), metadataSource := "tmdb"))) == FieldsOf(merged);
    }
  }

  /**
   * Every truthy incoming value is what the item holds afterwards, and every
   * missing or falsy one leaves the field as it was.
   */
  lemma AppliedFieldsWritten(it: Item, md: MetadataRecord, now: int)
    ensures var r := AppliedMetadata(it, md, now).item;
            (Truthy(md.tmdbId) ==> r.tmdbId == md.tmdbId) && (!Truthy(md.tmdbId) ==> r.tmdbId == it.tmdbId)
            && (Truthy(md.imdbId) ==> r.imdbId == md.imdbId) && (!Truthy(md.imdbId) ==> r.imdbId == it.imdbId)
            && (Truthy(md.title) ==> r.title == md.title.value) && (!Truthy(md.title) ==> r.title == it.title)
            && (Truthy(md.synopsis) ==> r.synopsis == md.synopsis.value) && (!Truthy(md.synopsis) ==> r.synopsis == it.synopsis)
            && (Truthy(md.tagline) ==> r.tagline == md.tagline.value) && (!Truthy(md.tagline) ==> r.tagline == it.tagline)
            && (TruthyInt(md.releaseYear) ==> r.releaseYear == md.releaseYear)
            && (!TruthyInt(md.releaseYear) ==> r.releaseYear == it.releaseYear)
            && (TruthySeq(md.genres) ==> r.genres == md.genres) && (!TruthySeq(md.genres) ==> r.genres == it.genres)
            && (TruthySeq(md.cast) ==> r.cast == md.cast) && (!TruthySeq(md.cast) ==> r.cast == it.cast)
            && (TruthySeq(md.crew) ==> r.crew == md.crew) && (!TruthySeq(md.crew) ==> r.crew == it.crew)
            && (Truthy(md.poster) ==> r.posterUrl == md.poster.value) && (!Truthy(md.poster) ==> r.posterUrl == it.posterUrl)
            && (Truthy(md.backdrop) ==> r.backdropUrl == md.backdrop.value)
            && (!Truthy(md.backdrop) ==> r.backdropUrl == it.backdropUrl)
  {
    AppliedFields(it, md, now);
  }

  /** The runtime is the incoming minutes times 60000 whenever those are given and non-zero. */
  lemma AppliedRuntime(it: Item, md: MetadataRecord, now: int)
    ensures TruthyInt(md.runtimeMinutes) ==> AppliedMetadata(it, md, now).item.runtimeMs == Some(md.runtimeMinutes.value * 60000)
    ensures !TruthyInt(md.runtimeMinutes) ==> AppliedMetadata(it, md, now).item.runtimeMs == it.runtimeMs
  {
  }

  /** The sync time and source are written exactly when some field changed. */
  lemma AppliedStampsIffChanged(it: Item, md: MetadataRecord, now: int)
    ensures var a := AppliedMetadata(it, md, now);
            a.changed <==> FieldsOf(a.item) != FieldsOf(it)
    ensures var a := AppliedMetadata(it, md, now);
            a.changed ==> a.item.metadataLastSyncedAt == Some(now) && a.item.metadataSource == "tmdb"
    ensures var a := AppliedMetadata(it, md, now);
            !a.changed ==> a.item == it
  {
  }

  lemma MergedIntoIdempotent(f: MergedFields, md: MetadataRecord)
    ensures MergedInto(MergedInto(f, md), md) == MergedInto(f, md)
  {
  }

  /** Applying the same metadata again changes nothing and leaves the sync time as it was. */
  lemma AppliedIdempotent(it: Item, md: MetadataRecord, now: int, later: int)
    ensures var once := AppliedMetadata(it, md, now);
            var twice := AppliedMetadata(once.item, md, later);
            !twice.changed && twice.item == once.item
  {
    var once := AppliedMetadata(it, md, now);
    MergedIntoIdempotent(FieldsOf(it), md);
    assert FieldsOf(once.item) == MergedInto(FieldsOf(it), md);
  }

  /** The tmdb and imdb ids, then title, synopsis and tagline, then year and runtime, lists, artwork. */
  function MergedIds(it: Item, md: MetadataRecord): Item {
    it.(tmdbId := TakeOpt(it.tmdbId, md.tmdbId), imdbId := TakeOpt(it.imdbId, md.imdbId))
  }

  function MergedText(it: Item, md: MetadataRecord): Item {
    it.(title := Take1(it.title, md.title), synopsis := Take1(it.synopsis, md.synopsis),
        tagline := Take1(it.tagline, md.tagline))
  }

  function MergedNumbers(it: Item, md: MetadataRecord): Item {
    it.(releaseYear := TakeYear(it.releaseYear, md.releaseYear), runtimeMs := TakeRuntime(it.runtimeMs, md.runtimeMinutes))
  }

  function MergedLists(it: Item, md: MetadataRecord): Item {
    it.(genres := TakeSeq(it.genres, md.genres), cast := TakeSeq(it.cast, md.cast), crew := TakeSeq(it.crew, md.crew))
  }

  function MergedArt(it: Item, md: MetadataRecord): Item {
    it.(posterUrl := Take1(it.posterUrl, md.poster), backdropUrl := Take1(it.backdropUrl, md.backdrop))
  }

  /** Merging the field groups one after the other is the whole merge. */
  lemma MergedGroups(it: Item, md: MetadataRecord)
    ensures MergedArt(MergedLists(MergedNumbers(MergedText(MergedIds(it, md), md), md), md), md)
            == WithFields(it, MergedInto(FieldsOf(it), md))
  {
  }

  method ApplyIds(item: MediaItem, md: MetadataRecord) returns (changed: bool)
    modifies item
    ensures item.Row() == MergedIds(old(item.Row()), md)
    ensures changed <==> item.Row() != old(item.Row())
  {
    changed := false;
    if Truthy(md.tmdbId) && md.tmdbId != item.tmdbId {
      item.tmdbId := md.tmdbId;
      changed := true;
    }
    if Truthy(md.imdbId) && md.imdbId != item.imdbId {
      item.imdbId := md.imdbId;
      changed := true;
    }
  }

  method ApplyText(item: MediaItem, md: MetadataRecord) returns (changed: bool)
    modifies item
    ensures item.Row() == MergedText(old(item.Row()), md)
    ensures changed <==> item.Row() != old(item.Row())
  {
    changed := false;
    if Truthy(md.title) && md.title.value != item.title {
      item.title := md.title.value;
      changed := true;
    }
    if Truthy(md.synopsis) && md.synopsis.value != item.synopsis {
      item.synopsis := md.synopsis.value;
      changed := true;
    }
    if Truthy(md.tagline) && md.tagline.value != item.tagline {
      item.tagline := md.tagline.value;
      changed := true;
    }
  }

  method ApplyNumbers(item: MediaItem, md: MetadataRecord) returns (changed: bool)
    modifies item
    ensures item.Row() == MergedNumbers(old(item.Row()), md)
    ensures changed <==> item.Row() != old(item.Row())
  {
    changed := false;
    if TruthyInt(md.releaseYear) && md.releaseYear != item.releaseYear {
      item.releaseYear := md.releaseYear;
      changed := true;
    }
    if TruthyInt(md.runtimeMinutes) {
      var runtime := md.runtimeMinutes.value * 60 * 1000;
      if item.runtimeMs != Some(runtime) {
        item.runtimeMs := Some(runtime);
        changed := true;
      }
    }
  }

  method ApplyLists(item: MediaItem, md: MetadataRecord) returns (changed: bool)
    modifies item
    ensures item.Row() == MergedLists(old(item.Row()), md)
    ensures changed <==> item.Row() != old(item.Row())
  {
    changed := false;
    if TruthySeq(md.genres) && md.genres != item.genres {
      item.genres := md.genres;
      changed := true;
    }
    if TruthySeq(md.cast) && md.cast != item.cast {
      item.cast := md.cast;
      changed := true;
    }
    if TruthySeq(md.crew) && md.crew != item.crew {
      item.crew := md.crew;
      changed := true;
    }
  }

  method ApplyArt(item: MediaItem, md: MetadataRecord) returns (changed: bool)
    modifies item
    ensures item.Row() == MergedArt(old(item.Row()), md)
    ensures changed <==> item.Row() != old(item.Row())
  {
    changed := false;
    if Truthy(md.poster) && md.poster.value != item.posterUrl {
      item.posterUrl := md.poster.value;
      changed := true;
    }
    if Truthy(md.backdrop) && md.backdrop.value != item.backdropUrl {
      item.backdropUrl := md.backdrop.value;
      changed := true;
    }
  }

  /** Each group step only touches the twelve merged fields, so the item changed iff they did. */
  lemma MergedChangedIff(it: Item, md: MetadataRecord)
    ensures var m := WithFields(it, MergedInto(FieldsOf(it), md));
            (m != it <==> MergedInto(FieldsOf(it), md) != FieldsOf(it))
  {
    var f := MergedInto(FieldsOf(it), md);
    if f == FieldsOf(it) {
      assert WithFields(it, f) == it;
    }
  }

  /** `apply_metadata` on a media item; returns the artwork rows it writes. */
  method ApplyMetadata(item: MediaItem, md: MetadataRecord, now: int) returns (artwork: seq<ArtworkWrite>)
    modifies item
    ensures item.Row() == AppliedMetadata(old(item.Row()), md, now).item
    ensures artwork == AppliedMetadata(old(item.Row()), md, now).artwork
  {
    ghost var before := item.Row();
    ghost var r0 := MergedIds(before, md);
    ghost var r1 := MergedText(r0, md);
    ghost var r2 := MergedNumbers(r1, md);
    ghost var r3 := MergedLists(r2, md);
    var c0 := ApplyIds(item, md);
    var c1 := ApplyText(item, md);
    var c2 := ApplyNumbers(item, md);
    var c3 := ApplyLists(item, md);
    var c4 := ApplyArt(item, md);
    var changed := c0 || c1 || c2 || c3 || c4;
    MergedGroups(before, md);
    MergedChangedIff(before, md);
    ghost var f := MergedInto(FieldsOf(before), md);
    ghost var merged := WithFields(before, f);
    assert item.Row() == merged;
    assert changed <==> f != FieldsOf(before);
    if changed {
      item.metadataLastSyncedAt := Some(now);
      item.metadataSource := "tmdb";
      assert item.Row() == merged.(metadataLastSyncedAt := Some(now), metadataSource := "tmdb");
      item.EnsureSortTitle();
    }
    assert item.Row() == AppliedMetadata(before, md, now).item;
    artwork := ArtworkWrites(md);
  }

  /** The artwork rows `apply_metadata` updates or creates: the poster, then the backdrop, each only when truthy. */
  method ArtworkWrites(md: MetadataRecord) returns (artwork: seq<ArtworkWrite>)
    ensures artwork == ArtworkFor(md)
    ensures |artwork| <= 2
    ensures forall w :: w in artwork ==>
              var src := if w.asset == Poster then md.poster else md.backdrop; Truthy(src) && w.url == src.value
  {
    artwork := [];
    if Truthy(md.poster) {
      artwork := artwork + [ArtworkWrite(Poster, md.poster.value)];
    }
    if Truthy(md.backdrop) {
      artwork := artwork + [ArtworkWrite(Backdrop, md.backdrop.value)];
    }
  }

  /** `sync_metadata`: applies what the fetch found; reports whether there was anything to apply. */
  method SyncMetadata(item: MediaItem, fetched: Option<MetadataRecord>, now: int) returns (applied: bool, artwork: seq<ArtworkWrite>)
    modifies item
    ensures applied <==> fetched.Some?
    ensures !applied ==> item.Row() == old(item.Row()) && artwork == []
    ensures applied ==> item.Row() == AppliedMetadata(old(item.Row()), fetched.value, now).item
  {
    if fetched.None? {
      return false, [];
    }
    artwork := ApplyMetadata(item, fetched.value, now);
    applied := true;
  }
}
