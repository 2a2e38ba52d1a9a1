/** The poster service's own arithmetic: the running time of a poster
    imported from a Kinopoisk movie record. A film runs for its movie
    length; a series runs for its episode length times the number of
    episodes over all its seasons. */
module PosterService {

  /** One season of a series, as the movie record lists it. */
  datatype SeasonInfo = SeasonInfo(number: int, episodesCount: int)

  /** The fields of a movie record the running time depends on. */
  datatype MovieResponse = MovieResponse(isSeries: bool, movieLength: int, seriesLength: int, seasonsInfo: seq<SeasonInfo>)

  /** The number of episodes over a run of seasons. */
  function Episodes(seasons: seq<SeasonInfo>): (n: int)
    ensures seasons == [] ==> n == 0
    ensures |seasons| == 1 ==> n == seasons[0].episodesCount
  {
    if seasons == [] then 0
    else Episodes(seasons[..|seasons| - 1]) + seasons[|seasons| - 1].episodesCount
  }

  /** Episodes add up over consecutive runs of seasons. */
  lemma {:induction false} EpisodesAppend(a: seq<SeasonInfo>, b: seq<SeasonInfo>)
    ensures Episodes(a + b) == Episodes(a) + Episodes(b)
  {
    if b == [] {
      assert a + b == a;
    } else {
      EpisodesAppend(a, b[..|b| - 1]);
      assert (a + b)[..|a + b| - 1] == a + b[..|b| - 1];
    }
  }

  /** The first season's episodes plus those of the rest. */
  lemma EpisodesCons(s: SeasonInfo, rest: seq<SeasonInfo>)
    ensures Episodes([s] + rest) == s.episodesCount + Episodes(rest)
  {
    EpisodesAppend([s], rest);
    assert [s][..0] == [];
  }

  /** Seasons with no negative episode count add up to at least the count
      of any one of them. */
  lemma {:induction false} EpisodesBoundsEachSeason(seasons: seq<SeasonInfo>, i: int)
    requires forall j :: 0 <= j < |seasons| ==> seasons[j].episodesCount >= 0
    requires 0 <= i < |seasons|
    ensures Episodes(seasons) >= seasons[i].episodesCount >= 0
  {
    var last := |seasons| - 1;
    if i < last {
      EpisodesBoundsEachSeason(seasons[..last], i);
    } else {
      EpisodesNonNegative(seasons[..last]);
    }
  }

  /** Seasons with no negative episode count add up to a non-negative
      number of episodes. */
  lemma {:induction false} EpisodesNonNegative(seasons: seq<SeasonInfo>)
    requires forall j :: 0 <= j < |seasons| ==> seasons[j].episodesCount >= 0
    ensures Episodes(seasons) >= 0
  {
    if seasons != [] {
      EpisodesNonNegative(seasons[..|seasons| - 1]);
    }
  }

  /** getMovieChrono: a film's running time is its movie length, and its
      series fields are not looked at; a series' is its episode length
      times the episodes of all its seasons, so a series without seasons
      runs for 0. */
  method MovieChrono(movie: MovieResponse) returns (chrono: int)
    ensures !movie.isSeries ==> chrono == movie.movieLength
    ensures movie.isSeries ==> chrono == movie.seriesLength * Episodes(movie.seasonsInfo)
    ensures movie.isSeries && movie.seasonsInfo == [] ==> chrono == 0
  {
    if !movie.isSeries {
      return movie.movieLength;
    }
    var seasons := movie.seasonsInfo;
    var episodesCount := 0;
    for i := 0 to |seasons|
      invariant episodesCount == Episodes(seasons[..i])
    {
      assert seasons[..i + 1][..i] == seasons[..i];
      episodesCount := episodesCount + seasons[i].episodesCount;
    }
    assert seasons[..|seasons|] == seasons;
    chrono := movie.seriesLength * episodesCount;
  }

  /** Splitting a series' seasons into two runs splits its running time. */
  lemma ChronoOfSeasonRuns(seriesLength: int, a: seq<SeasonInfo>, b: seq<SeasonInfo>)
    ensures seriesLength * Episodes(a + b) == seriesLength * Episodes(a) + seriesLength * Episodes(b)
  {
    EpisodesAppend(a, b);
    assert seriesLength * (Episodes(a) + Episodes(b)) == seriesLength * Episodes(a) + seriesLength * Episodes(b);
  }

  /** A concrete series: 45-minute episodes over seasons of 10 and 8
      episodes run for 810 minutes; the same record as a film runs for its
      movie length. */
  method SeriesExample() returns (series: int, film: int)
    ensures series == 810
    ensures film == 120
  {
    var seasons := [SeasonInfo(1, 10), SeasonInfo(2, 8)];
    assert seasons[..1] == [SeasonInfo(1, 10)];
    assert seasons[..1][..0] == [];
    series := MovieChrono(MovieResponse(true, 120, 45, seasons));
    film := MovieChrono(MovieResponse(false, 120, 45, seasons));
  }
}
