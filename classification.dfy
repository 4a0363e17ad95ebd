/**
 * `classify_media_file` (apps/media_library/utils.py) and the pathlib name
 * helpers it relies on. guessit itself is not modelled: its answer for a
 * file name is an input, either a `Guess` record or a failure message.
 */
module Classification {
  import opened Wrappers
  import opened Models

  /** `s.rfind(c)`: the last index holding `c`, or -1. */
  function LastIndexOf(s: string, c: char): (r: int)
    ensures -1 <= r < |s|
    ensures r >= 0 ==> s[r] == c && forall j :: r < j < |s| ==> s[j] != c
    ensures r == -1 ==> forall j :: 0 <= j < |s| ==> s[j] != c
    decreases |s|
  {
    if s == [] then -1
    else if s[|s| - 1] == c then |s| - 1
    else LastIndexOf(s[..|s| - 1], c)
  }

  /** pathlib's test for a name that has a suffix: a last dot that is neither first nor last. */
  predicate HasSuffix(name: string) {
    0 < LastIndexOf(name, '.') < |name| - 1
  }

  /** `PurePath(name).suffix`. */
  function Suffix(name: string): (r: string)
    ensures r == "" || (r[0] == '.' && forall j :: 0 < j < |r| ==> r[j] != '.')
    ensures HasSuffix(name) <==> r != ""
  {
    if HasSuffix(name) then name[LastIndexOf(name, '.')..] else ""
  }

  /** `PurePath(name).stem`. */
  function Stem(name: string): (r: string)
    ensures HasSuffix(name) ==> 0 < |r| < |name|
    ensures !HasSuffix(name) ==> r == name
  {
    if HasSuffix(name) then name[..LastIndexOf(name, '.')] else name
  }

  /** The stem and the suffix split the name. */
  lemma StemSuffixSplit(name: string)
    ensures Stem(name) + Suffix(name) == name
  {
    if HasSuffix(name) {
      var i := LastIndexOf(name, '.');
      assert name == name[..i] + name[i..];
    }
  }

  /** The fields of a guessit answer that the classification reads. */
  datatype Guess = Guess(
    kind: Option<string>,
    title: Option<string>,
    year: Option<int>,
    season: Option<int>,
    episode: Option<int>,
    episodeTitle: Option<string>,
    series: Option<string>)

  datatype GuessOutcome = Guessed(guess: Guess) | GuessFailed(error: string)

  /**
   * `ClassificationResult`. Of its `data` dictionary the model keeps the two
   * entries the rest of the core reads: `series_title` and `error`.
   */
  datatype ClassificationResult = ClassificationResult(
    detectedType: ItemType,
    title: string,
    year: Option<int>,
    season: Option<int>,
    episode: Option<int>,
    episodeTitle: Option<string>,
    seriesTitle: Option<string>,
    error: Option<string>)

  /** The mapping of guessit's `type` onto media item types. */
  function DetectedType(kind: Option<string>): (t: ItemType)
    ensures t == Movie <==> kind == Some("movie")
    ensures t == Episode <==> kind == Some("episode")
    ensures t == Show <==> kind == Some("show") || kind == Some("series") || kind == Some("tv")
    ensures t == Season <==> kind == Some("season")
    ensures t == OtherType <==> kind !in {Some("movie"), Some("episode"), Some("show"), Some("series"), Some("tv"), Some("season")}
    ensures t != Collection
  {
    if kind == Some("movie") then Movie
    else if kind == Some("episode") then Episode
    else if kind == Some("show") || kind == Some("series") || kind == Some("tv") then Show
    else if kind == Some("season") then Season
    else OtherType
  }

  function ClassifyMediaFile(fileName: string, outcome: GuessOutcome): (r: ClassificationResult)
    ensures outcome.GuessFailed? ==>
              r == ClassificationResult(OtherType, Stem(fileName), None, None, None, None, None, Some(outcome.error))
    ensures outcome.Guessed? ==>
              var g := outcome.guess;
              r.detectedType == DetectedType(g.kind) && r.title == OrElse(g.title, Stem(fileName))
              && r.year == g.year && r.season == g.season && r.episode == g.episode
              && r.episodeTitle == g.episodeTitle && r.error.None?
    ensures r.seriesTitle.Some? <==> r.detectedType == Episode
    ensures r.detectedType == Episode ==>
              r.seriesTitle == Some(OrElse(outcome.guess.series, OrElse(outcome.guess.title, Stem(fileName))))
  {
    match outcome
    case GuessFailed(e) => ClassificationResult(OtherType, Stem(fileName), None, None, None, None, None, Some(e))
    case Guessed(g) =>
      var stem := Stem(fileName);
      var t := DetectedType(g.kind);
      var series := if t == Episode then Some(OrElse(g.series, OrElse(g.title, stem))) else None;
      ClassificationResult(t, OrElse(g.title, stem), g.year, g.season, g.episode, g.episodeTitle, series, None)
  }

  /** The title is never empty unless both guessit's title and the stem are. */
  lemma ClassifiedTitleNonEmpty(fileName: string, outcome: GuessOutcome)
    requires Stem(fileName) != ""
    ensures ClassifyMediaFile(fileName, outcome).title != ""
    ensures ClassifyMediaFile(fileName, outcome).seriesTitle.Some? ==> ClassifyMediaFile(fileName, outcome).seriesTitle.value != ""
  {
  }
}
