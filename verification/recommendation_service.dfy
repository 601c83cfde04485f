/** The backend `RecommendationService`: the request is sent to the ML
    service, and any failure on that path falls back to a simple score,
    a stable descending sort and the top five. The content store and the
    remote call are parameters. */
module RecommendationService {
  import opened Wrappers
  import opened Text
  import opened Ranking
  import opened Movies
  import opened Catalogue

  datatype Request = Request(mood: Option<string>, timeAvailable: Option<int>, userId: Option<string>)

  datatype MovieRecommendation = MovieRecommendation(movie: Movie, aiReason: Option<string>, matchScore: Option<real>)

  datatype Response = Response(recommendations: seq<MovieRecommendation>, totalCandidates: Option<int>, source: string)

  // ---------------------------------------------------------------------
  // calculateSimpleScore

  function Abs(x: int): nat {
    if x < 0 then -x else x
  }

  /** Some tag equals the raw request mood, ignoring ASCII case; a null mood
      matches nothing. */
  predicate MoodTagMatches(m: Movie, mood: Option<string>) {
    m.moodTags.Some? && mood.Some? && exists t :: t in m.moodTags.value && EqualsIgnoreCase(t, mood.value)
  }

  function MoodPoints(m: Movie, mood: Option<string>): real {
    if MoodTagMatches(m, mood) then 50.0 else 0.0
  }

  function RatingPoints(m: Movie): real {
    if m.rating.Some? then m.rating.value / 10.0 * 30.0 else 0.0
  }

  /** Java `int` arithmetic: a result is reduced into -2^31 .. 2^31 - 1. */
  function Wrap32(x: int): (r: int)
    ensures -0x8000_0000 <= r < 0x8000_0000
    ensures -0x8000_0000 <= x < 0x8000_0000 ==> r == x
  {
    (x + 0x8000_0000) % 0x1_0000_0000 - 0x8000_0000
  }

  /** `Math.abs` on an `int`: the absolute value of -2^31 is -2^31 itself. */
  function JavaAbs(x: int): int {
    if x == -0x8000_0000 then x else if x < 0 then -x else x
  }

  /** The runtime fit, with the difference computed in 32-bit `int`. */
  function RuntimePoints(m: Movie, time: Option<int>): real {
    if m.runtime.Some? && time.Some? then
      var d := JavaAbs(Wrap32(m.runtime.value - time.value));
      if d <= 20 then 20.0 else if d <= 40 then 10.0 else 0.0
    else 0.0
  }

  /** The three terms, summed and capped at 100: a mood match alone is worth
      half the scale, and without one the score cannot pass 50. */
  function SimpleScore(m: Movie, req: Request): (r: real)
    ensures r <= 100.0
    ensures m.rating.None? || m.rating.value >= 0.0 ==> r >= 0.0
    ensures MoodTagMatches(m, req.mood) && (m.rating.None? || m.rating.value >= 0.0) ==> r >= 50.0
    ensures !MoodTagMatches(m, req.mood) && (m.rating.None? || m.rating.value <= 10.0) ==> r <= 50.0
    ensures MoodTagMatches(m, req.mood) && m.rating == Some(10.0) && m.runtime.Some? && req.timeAvailable == m.runtime
      ==> r == 100.0
  {
    var sum := MoodPoints(m, req.mood) + RatingPoints(m) + RuntimePoints(m, req.timeAvailable);
    if sum < 100.0 then sum else 100.0
  }

  /** The runtime difference is taken in 32-bit arithmetic: a runtime of
      -2147483647 against one minute overflows to -2^31, whose `Math.abs` is
      still negative, so the movie gets the full 20 points for fitting. */
  lemma RuntimeOverflowFits(m: Movie)
    requires m.runtime == Some(-0x7FFF_FFFF)
    ensures RuntimePoints(m, Some(1)) == 20.0
  {
    assert Wrap32(-0x7FFF_FFFF - 1) == -0x8000_0000;
  }

  /** Without overflow the runtime fit is the plain distance. */
  lemma RuntimePointsPlain(m: Movie, time: int)
    requires m.runtime.Some? && -0x8000_0000 < m.runtime.value - time < 0x8000_0000
    ensures var d := Abs(m.runtime.value - time);
      RuntimePoints(m, Some(time)) == if d <= 20 then 20.0 else if d <= 40 then 10.0 else 0.0
  {
  }

  /** A higher rating never lowers the score. */
  lemma ScoreMonotoneInRating(m: Movie, req: Request, better: real)
    requires m.rating.Some? && better >= m.rating.value
    ensures SimpleScore(m.(rating := Some(better)), req) >= SimpleScore(m, req)
  {
    assert MoodPoints(m.(rating := Some(better)), req.mood) == MoodPoints(m, req.mood);
  }

  /** The mood term compares the raw request mood: an alias such as
      "Edge of Seat" earns nothing on a movie tagged "thrilling", while a
      difference in case alone does not matter. */
  lemma MoodTermIgnoresAliases(m: Movie)
    requires m.moodTags == Some(["thrilling"])
    ensures MoodPoints(m, Some("Edge of Seat")) == 0.0
    ensures MoodPoints(m, Some("THRILLING")) == 50.0
  {
    LowerMatches("thrilling", "thrilling");
    LowerMatches("THRILLING", "thrilling");
    LowerMatches("Edge of Seat", "edge of seat");
    assert !EqualsIgnoreCase("thrilling", "Edge of Seat");
    assert EqualsIgnoreCase("thrilling", "THRILLING");
  }

  // ---------------------------------------------------------------------
  // getRecommendationsFromJavaFallback

  const NoMoviesMessage := "No movies found matching your preferences. Try a different mood!"
  const FallbackLimit: nat := 5

  function Scores(candidates: seq<Movie>, req: Request): (r: seq<real>)
    ensures |r| == |candidates|
    ensures forall i :: 0 <= i < |r| ==> r[i] == SimpleScore(candidates[i], req)
  {
    seq(|candidates|, i requires 0 <= i < |candidates| => SimpleScore(candidates[i], req))
  }

  /** The positions of the chosen candidates, best first, ties in input order. */
  function FallbackOrder(candidates: seq<Movie>, req: Request): (r: seq<nat>)
    ensures |r| == if |candidates| < FallbackLimit then |candidates| else FallbackLimit
    ensures forall p :: 0 <= p < |r| ==> r[p] < |candidates|
    ensures forall p, q :: 0 <= p < q < |r| ==> r[p] != r[q]
    ensures forall p, q :: 0 <= p < q < |r| ==>
      SimpleScore(candidates[r[p]], req) >= SimpleScore(candidates[r[q]], req)
    ensures forall p, q :: 0 <= p < q < |r| && SimpleScore(candidates[r[p]], req) == SimpleScore(candidates[r[q]], req) ==>
      r[p] < r[q]
  {
    TopK(Scores(candidates, req), FallbackLimit)
  }

  /** The entry built for a chosen movie. */
  function Recommend(m: Movie, req: Request): MovieRecommendation {
    MovieRecommendation(m, m.aiDescription, Some(SimpleScore(m, req)))
  }

  function FallbackRecommendation(req: Request, catalogue: seq<Movie>): (r: Result<Response, string>)
    ensures var c := GetMoviesByMood(req.mood, catalogue);
      && (r.Err? <==> c == [])
      && (r.Err? ==> r.error == NoMoviesMessage)
      && (r.Ok? ==>
        && r.value.source == "fallback"
        && r.value.totalCandidates == Some(|c|)
        && |r.value.recommendations| == |FallbackOrder(c, req)|
        && forall p :: 0 <= p < |r.value.recommendations| ==>
             r.value.recommendations[p] == Recommend(c[FallbackOrder(c, req)[p]], req))
  {
    var c := GetMoviesByMood(req.mood, catalogue);
    if c == [] then Err(NoMoviesMessage)
    else
      var order := FallbackOrder(c, req);
      var recs := seq(|order|, p requires 0 <= p < |order| => Recommend(c[order[p]], req));
      Ok(Response(recs, Some(|c|), "fallback"))
  }

  /** The fallback answer has min(5, |candidates|) entries in non-increasing
      score order, each scored by `calculateSimpleScore` and explained by the
      movie's AI description. */
  lemma FallbackShape(req: Request, catalogue: seq<Movie>)
    ensures var c := GetMoviesByMood(req.mood, catalogue);
      var r := FallbackRecommendation(req, catalogue);
      var recs := if r.Ok? then r.value.recommendations else [];
      r.Ok? ==>
      && |recs| == (if |c| < 5 then |c| else 5)
      && (forall p :: 0 <= p < |recs| ==> recs[p].movie in c)
      && (forall p :: 0 <= p < |recs| ==> recs[p].aiReason == recs[p].movie.aiDescription)
      && (forall p :: 0 <= p < |recs| ==> recs[p].matchScore == Some(SimpleScore(recs[p].movie, req)))
      && (forall p, q :: 0 <= p < q < |recs| ==> recs[p].matchScore.value >= recs[q].matchScore.value)
  {
  }

  /** No candidate left out outscores a chosen one, and of two equal scores
      at the cut the earlier candidate is kept (the sort is stable). */
  lemma FallbackDominates(req: Request, catalogue: seq<Movie>, p: nat, j: nat)
    requires var c := GetMoviesByMood(req.mood, catalogue);
      p < |FallbackOrder(c, req)| && j < |c| && j !in FallbackOrder(c, req)
    ensures var c := GetMoviesByMood(req.mood, catalogue);
      SimpleScore(c[FallbackOrder(c, req)[p]], req) >= SimpleScore(c[j], req)
    ensures var c := GetMoviesByMood(req.mood, catalogue);
      SimpleScore(c[FallbackOrder(c, req)[p]], req) == SimpleScore(c[j], req) ==> FallbackOrder(c, req)[p] < j
  {
    var c := GetMoviesByMood(req.mood, catalogue);
    TopKDominates(Scores(c, req), FallbackLimit, p, j);
  }

  // ---------------------------------------------------------------------
  // The ML path and its conversions

  /** `PythonRecommendationRequest.MovieInput`. */
  datatype MovieInput = MovieInput(
    title: Option<string>, year: Option<int>, runtime: Option<int>, rating: Option<real>,
    genre: Option<seq<string>>, moodTags: Option<seq<string>>, platforms: Option<seq<string>>,
    description: Option<string>, aiDescription: Option<string>, imageUrl: Option<string>)

  datatype PythonRequest = PythonRequest(
    mood: Option<string>, timeAvailable: Option<int>, movies: seq<MovieInput>,
    topN: Option<int>, userId: Option<string>)

  /** `PythonRecommendationResponse.PythonMovie`. */
  datatype PythonMovie = PythonMovie(
    title: Option<string>, year: Option<int>, runtime: Option<int>, rating: Option<real>,
    genre: Option<seq<string>>, moodTags: Option<seq<string>>, platforms: Option<seq<string>>,
    description: Option<string>, aiDescription: Option<string>, similarityScore: Option<real>,
    imageUrl: Option<string>, image: Option<ImageObject>)

  datatype PythonRecommendation = PythonRecommendation(movie: Option<PythonMovie>, reason: Option<string>, matchScore: Option<real>)

  datatype PythonResponse = PythonResponse(recommendations: Option<seq<PythonRecommendation>>, totalCandidates: Option<int>)

  /** What the remote path produced: an exception (the catalogue fetch or the
      HTTP call failed) or the deserialised body, possibly null. */
  datatype RemoteOutcome = RemoteFailed(message: string) | RemoteReturned(response: Option<PythonResponse>)

  /** `convertToMovieInput`: the fields copied, the poster as its URL. */
  function ConvertToMovieInput(m: Movie): (r: MovieInput)
    ensures r.imageUrl == ImageUrl(m)
  {
    MovieInput(m.title, m.year, m.runtime, m.rating, m.genre, m.moodTags, m.platforms,
               m.description, m.aiDescription, ImageUrl(m))
  }

  /** The request sent to the ML service: all movies, top 5. */
  function BuildPythonRequest(req: Request, catalogue: seq<Movie>): (r: PythonRequest)
    ensures |r.movies| == |catalogue|
    ensures forall i :: 0 <= i < |catalogue| ==> r.movies[i] == ConvertToMovieInput(catalogue[i])
    ensures r.topN == Some(5) && r.mood == req.mood && r.timeAvailable == req.timeAvailable && r.userId == req.userId
  {
    PythonRequest(req.mood, req.timeAvailable,
                  seq(|catalogue|, i requires 0 <= i < |catalogue| => ConvertToMovieInput(catalogue[i])),
                  Some(5), req.userId)
  }

  /** The `Movie` rebuilt from the ML service's movie: no uid, and an image
      object only when the URL is non-null. */
  function ConvertPythonMovie(pm: PythonMovie): (r: Movie)
    ensures ImageUrl(r) == pm.imageUrl
    ensures r.uid.None?
  {
    Movie(None, pm.title, pm.year, pm.runtime, pm.rating, pm.genre, pm.moodTags, pm.platforms,
          pm.description, pm.aiDescription, PosterImage(pm.imageUrl))
  }

  /** `convertPythonRecommendation`; a null movie is a NullPointerException. */
  function ConvertPythonRecommendation(rec: PythonRecommendation): (r: Option<MovieRecommendation>)
    ensures r.None? <==> rec.movie.None?
    ensures r.Some? ==> r.value.aiReason == rec.reason && r.value.matchScore == rec.matchScore
    ensures r.Some? ==> ImageUrl(r.value.movie) == rec.movie.value.imageUrl
  {
    if rec.movie.None? then None
    else Some(MovieRecommendation(ConvertPythonMovie(rec.movie.value), rec.reason, rec.matchScore))
  }

  /** Every recommendation carries a movie. */
  predicate AllHaveMovies(recs: seq<PythonRecommendation>) {
    forall i :: 0 <= i < |recs| ==> recs[i].movie.Some?
  }

  /** `convertPythonResponse`: one entry per recommendation, in order. */
  function ConvertPythonResponse(recs: seq<PythonRecommendation>, total: Option<int>): (r: Option<Response>)
    ensures r.Some? <==> AllHaveMovies(recs)
    ensures r.Some? ==>
      && r.value.source == "ml"
      && r.value.totalCandidates == total
      && |r.value.recommendations| == |recs|
      && forall i :: 0 <= i < |recs| ==> Some(r.value.recommendations[i]) == ConvertPythonRecommendation(recs[i])
  {
    if AllHaveMovies(recs) then
      Some(Response(seq(|recs|, i requires 0 <= i < |recs| => ConvertPythonRecommendation(recs[i]).value), total, "ml"))
    else None
  }

  /** The answer of the ML path, or None when the path throws: the remote
      failed, the body or its list is null, or a recommendation has no movie. */
  function MlAnswer(remote: RemoteOutcome): (r: Option<Response>)
    ensures r.Some? <==>
      remote.RemoteReturned? && remote.response.Some? && remote.response.value.recommendations.Some?
      && AllHaveMovies(remote.response.value.recommendations.value)
  {
    if remote.RemoteReturned? && remote.response.Some? && remote.response.value.recommendations.Some? then
      ConvertPythonResponse(remote.response.value.recommendations.value, remote.response.value.totalCandidates)
    else None
  }

  /** `getRecommendation`: the ML answer when there is one, else the fallback,
      whose error propagates. */
  function GetRecommendation(req: Request, catalogue: seq<Movie>, remote: RemoteOutcome): (r: Result<Response, string>)
    ensures MlAnswer(remote).Some? ==> r == Ok(MlAnswer(remote).value)
    ensures MlAnswer(remote).None? ==> r == FallbackRecommendation(req, catalogue)
  {
    match MlAnswer(remote)
    case Some(resp) => Ok(resp)
    case None => FallbackRecommendation(req, catalogue)
  }

  /** The answer's source tells which path produced it, and only the
      fallback can fail. */
  lemma SourceTellsPath(req: Request, catalogue: seq<Movie>, remote: RemoteOutcome)
    ensures var r := GetRecommendation(req, catalogue, remote);
      && (r.Ok? ==> (r.value.source == "ml" <==> MlAnswer(remote).Some?))
      && (r.Ok? ==> (r.value.source == "fallback" <==> MlAnswer(remote).None?))
      && (r.Err? <==> MlAnswer(remote).None? && GetMoviesByMood(req.mood, catalogue) == [])
  {
  }

  /** A movie sent to the ML service and echoed back comes out as the same
      movie, except that its uid is lost and its image object keeps only the
      URL. */
  lemma EchoRoundTrip(m: Movie, similarity: Option<real>, image: Option<ImageObject>)
    ensures var mi := ConvertToMovieInput(m);
      var pm := PythonMovie(mi.title, mi.year, mi.runtime, mi.rating, mi.genre, mi.moodTags,
                            mi.platforms, mi.description, mi.aiDescription, similarity, mi.imageUrl, image);
      && ConvertPythonMovie(pm) == m.(uid := None, image := PosterImage(ImageUrl(m)))
      && ImageUrl(ConvertPythonMovie(pm)) == ImageUrl(m)
  {
  }
}
