/** The Python `RecommendationEngine.get_recommendation`: default the movies'
    fields, normalise the mood (an unknown one is an error), keep the movies
    tagged with it, prefer those that fit the evening when there are enough
    of them, rank with the content-based model and explain each pick.
    Rounding to one decimal, the text of a float rating and the similarity
    term are parameters. */
module RecommendationEngine {
  import opened Wrappers
  import opened Text
  import opened Seqs
  import opened Schemas
  import opened ContentBased
  import opened MoodTable
  import PyMoodMapper
  import Ranking

  // ---------------------------------------------------------------------
  // Defaults: Python `x or default`

  /** `x or default`: None and the type's falsy value both give the default. */
  function OrElse<T(==)>(x: Option<T>, falsy: T, default: T): T {
    if x.None? || x.value == falsy then default else x.value
  }

  const DefaultYear := 2020
  const DefaultRuntime := 120
  const DefaultRating := 7.0

  function ToRow(m: MovieInput): Row {
    Row(m.title, OrElse(m.year, 0, DefaultYear), OrElse(m.runtime, 0, DefaultRuntime),
        OrElse(m.rating, 0.0, DefaultRating),
        m.genre.GetOr([]), m.moodTags.GetOr([]), m.platforms.GetOr([]),
        m.description.GetOr(""), m.aiDescription.GetOr(""), m.imageUrl)
  }

  /** A movie given by its title alone gets year 2020, 120 minutes, a 7.0
      rating, empty lists and empty texts. */
  lemma TitleOnlyDefaults(title: string)
    ensures var m := ParseMovieInput(RawMovie(Given(title), Absent, Absent, Absent, Absent, Absent, Absent, Absent, Absent, Absent)).value;
      ToRow(m) == Row(title, 2020, 120, 7.0, [], [], [], "", "", None)
  {
    MovieDefaults(title);
  }

  /** Zero is falsy: a year, runtime or rating of 0 is replaced as if absent. */
  lemma ZeroIsDefaulted(m: MovieInput)
    requires m.year == Some(0) && m.runtime == Some(0) && m.rating == Some(0.0)
    ensures ToRow(m).year == DefaultYear && ToRow(m).runtime == DefaultRuntime && ToRow(m).rating == DefaultRating
  {
  }

  /** Truthy values are kept as given. */
  lemma TruthyKept(m: MovieInput)
    requires m.year.Some? && m.year.value != 0 && m.runtime.Some? && m.runtime.value != 0
    requires m.rating.Some? && m.rating.value != 0.0
    ensures ToRow(m).year == m.year.value && ToRow(m).runtime == m.runtime.value && ToRow(m).rating == m.rating.value
  {
  }

  function Rows(movies: seq<MovieInput>): (r: seq<Row>)
    ensures |r| == |movies| && forall i :: 0 <= i < |movies| ==> r[i] == ToRow(movies[i])
  {
    seq(|movies|, i requires 0 <= i < |movies| => ToRow(movies[i]))
  }

  // ---------------------------------------------------------------------
  // Candidate selection

  /** Some tag, lower-cased, equals the normalised mood. */
  predicate TagMatches(row: Row, mood: string) {
    exists t :: t in row.moodTags && Lower(t) == mood
  }

  function Candidates(rows: seq<Row>, mood: string): seq<Row> {
    Filter(rows, (row: Row) => TagMatches(row, mood))
  }

  function FitsTime(rows: seq<Row>, time: int): seq<Row> {
    Filter(rows, (row: Row) => row.runtime <= time + 60)
  }

  /** The time filter is kept only when it leaves at least `topN` movies;
      otherwise it is dropped and flagged as relaxed. */
  function TimeSelection(candidates: seq<Row>, time: int, topN: int): (r: (seq<Row>, bool))
    ensures r.1 <==> |FitsTime(candidates, time)| < topN
    ensures r.1 ==> r.0 == candidates
    ensures !r.1 ==> |r.0| >= topN && IsSubsequence(r.0, candidates)
    ensures !r.1 ==> forall i :: 0 <= i < |r.0| ==> r.0[i].runtime <= time + 60
    ensures !r.1 ==> forall m :: multiset(r.0)[m] == if m.runtime <= time + 60 then multiset(candidates)[m] else 0
  {
    var fitting := FitsTime(candidates, time);
    if |fitting| < topN then (candidates, true) else (fitting, false)
  }

  function NoMoviesMessage(mood: string): string {
    "No movies found for mood: '" + mood + "'. Try one of these: " + Join(", ", UiFriendlyMoods)
  }

  // ---------------------------------------------------------------------
  // _generate_reason

  function RuntimeDiff(runtime: int, time: int): nat {
    if runtime >= time then runtime - time else time - runtime
  }

  function MoodPart(mood: string): string {
    "Perfect match for your '" + mood + "' mood"
  }

  function RatingPart(rating: real, ratingText: real -> string): string {
    "Highly rated (" + ratingText(rating) + "/10)"
  }

  function RuntimePart(runtime: int): string {
    "Runtime: " + IntToString(runtime) + " mins"
  }

  const RelaxedNote := " (longer than requested, but worth it!)"

  function GenrePart(genre: seq<string>): string
    requires genre != []
  {
    "Great " + Join(", ", if |genre| < 2 then genre else genre[..2])
  }

  predicate RuntimeMentioned(row: Row, time: int, relaxed: bool) {
    RuntimeDiff(row.runtime, time) <= 20 || relaxed
  }

  function Count(b: bool): nat {
    if b then 1 else 0
  }

  /** The reasons, in order: the mood, a high rating, the runtime, the genres. */
  function ReasonParts(row: Row, mood: string, time: int, relaxed: bool, ratingText: real -> string): (r: seq<string>)
    ensures |r| == Count(MoodMatch(row, mood)) + Count(row.rating >= 8.0)
                 + Count(RuntimeMentioned(row, time, relaxed)) + Count(row.genre != [])
    ensures MoodMatch(row, mood) ==> r[0] == MoodPart(mood)
    ensures row.rating >= 8.0 ==> r[Count(MoodMatch(row, mood))] == RatingPart(row.rating, ratingText)
    ensures row.genre != [] ==> r[|r| - 1] == GenrePart(row.genre)
    ensures RuntimeMentioned(row, time, relaxed) ==>
      var k := Count(MoodMatch(row, mood)) + Count(row.rating >= 8.0);
      r[k] == RuntimePart(row.runtime) + (if RuntimeDiff(row.runtime, time) <= 20 then "" else RelaxedNote)
  {
    var moodPart := if MoodMatch(row, mood) then [MoodPart(mood)] else [];
    var ratingPart := if row.rating >= 8.0 then [RatingPart(row.rating, ratingText)] else [];
    var runtimePart :=
      if RuntimeDiff(row.runtime, time) <= 20 then [RuntimePart(row.runtime)]
      else if relaxed then [RuntimePart(row.runtime) + RelaxedNote]
      else [];
    var genrePart := if row.genre != [] then [GenrePart(row.genre)] else [];
    moodPart + ratingPart + runtimePart + genrePart
  }

  /** The reasons joined with " • ", after the AI description and a space
      when there is one: every reason that applies appears in the text, the
      mood reason leads when there is no AI description, and the genre
      reason always comes last. With no reason at all, an AI description is
      followed by a dangling space. */
  function GenerateReason(row: Row, mood: string, time: int, relaxed: bool, ratingText: real -> string): (r: string)
    ensures var ai := row.aiDescription;
      ai != [] ==> |r| > |ai| && r[..|ai| + 1] == ai + " "
    ensures var parts := ReasonParts(row, mood, time, relaxed, ratingText);
      forall i :: 0 <= i < |parts| ==> IsInfix(parts[i], r)
    ensures ReasonParts(row, mood, time, relaxed, ratingText) == [] ==>
      r == if row.aiDescription != [] then row.aiDescription + " " else ""
    ensures row.aiDescription == [] && MoodMatch(row, mood) ==>
      |r| >= |MoodPart(mood)| && r[..|MoodPart(mood)|] == MoodPart(mood)
    ensures row.genre != [] ==>
      var g := GenrePart(row.genre);
      |r| >= |g| && r[|r| - |g|..] == g
  {
    Explain(row.aiDescription, ReasonParts(row, mood, time, relaxed, ratingText))
  }

  /** The parts joined with " • ", after `ai` and a space when `ai` is not
      empty. */
  function Explain(ai: string, parts: seq<string>): (r: string)
    ensures ai != [] ==> |r| > |ai| && r[..|ai| + 1] == ai + " "
    ensures forall i :: 0 <= i < |parts| ==> IsInfix(parts[i], r)
    ensures parts == [] ==> r == if ai != [] then ai + " " else ""
    ensures ai == [] && parts != [] ==> |r| >= |parts[0]| && r[..|parts[0]|] == parts[0]
    ensures parts != [] ==> var last := parts[|parts| - 1]; |r| >= |last| && r[|r| - |last|..] == last
  {
    var joined := Join(" • ", parts);
    JoinItems(" • ", parts);
    if ai != [] then
      var r := ai + " " + joined;
      assert r == (ai + " ") + joined;
      assert forall i :: 0 <= i < |parts| ==> IsInfix(parts[i], r) by {
        forall i | 0 <= i < |parts|
          ensures IsInfix(parts[i], r)
        {
          InfixAfter(parts[i], ai + " ", joined);
        }
      }
      r
    else joined
  }

  /** Under a relaxed time filter a movie far too SHORT is also called
      "longer than requested". */
  lemma ShortMovieCalledLonger(row: Row, mood: string, time: int, ratingText: real -> string)
    requires row.runtime < time - 20
    ensures RuntimePart(row.runtime) + RelaxedNote in ReasonParts(row, mood, time, true, ratingText)
  {
    var r := ReasonParts(row, mood, time, true, ratingText);
    var k := Count(MoodMatch(row, mood)) + Count(row.rating >= 8.0);
    assert r[k] == RuntimePart(row.runtime) + RelaxedNote;
  }

  // ---------------------------------------------------------------------
  // get_recommendation

  function Min(a: int, b: int): int {
    if a < b then a else b
  }

  function ToResponse(row: Row, score: real): MovieResponse {
    MovieResponse(row.title, row.year, row.runtime, row.rating, row.genre, row.moodTags, row.platforms,
                  row.description, row.aiDescription, Some(score), row.imageUrl)
  }

  lemma CandidatesHaveTitles(rows: seq<Row>, mood: string, kept: seq<Row>)
    requires IsSubsequence(kept, Candidates(rows, mood)) || kept == Candidates(rows, mood)
    ensures forall c :: c in kept ==> HasTitle(rows, c.title)
  {
    FilterMembers(rows, (row: Row) => TagMatches(row, mood));
    forall c | c in kept
      ensures HasTitle(rows, c.title)
    {
      SubsequenceMembers(kept, Candidates(rows, mood), c);
      var i :| 0 <= i < |rows| && rows[i] == c;
    }
  }

  /** The candidates the ranking sees, and whether the time filter was relaxed. */
  function Selection(req: Request, rows: seq<Row>, mood: string): (seq<Row>, bool) {
    TimeSelection(Candidates(rows, mood), req.timeAvailable, req.topN)
  }

  /** The ranked (row index, score) pairs: min(top_n, kept) of them, best first. */
  function Ranked(req: Request, rows: seq<Row>, mood: string, similarity: nat -> real): (r: seq<(nat, real)>)
    requires ValidRequest(req)
    ensures |r| == Min(req.topN, |Selection(req, rows, mood).0|)
    ensures forall p :: 0 <= p < |r| ==> r[p].0 < |rows|
    ensures forall p, q :: 0 <= p < q < |r| ==> r[p].1 >= r[q].1
  {
    var sel := Selection(req, rows, mood);
    CandidatesHaveTitles(rows, mood, sel.0);
    GetRecommendations(true, rows, sel.0, mood, req.timeAvailable, Min(req.topN, |sel.0|), similarity).value
  }

  /** One entry per ranked pair: the row shown with its score, the score
      rounded, and the reason. */
  function BuildRecommendations(rows: seq<Row>, ranked: seq<(nat, real)>, mood: string, time: int, relaxed: bool,
                                round1: real -> real, ratingText: real -> string): (r: seq<SingleRecommendation>)
    requires forall p :: 0 <= p < |ranked| ==> ranked[p].0 < |rows|
    ensures |r| == |ranked|
    ensures forall p :: 0 <= p < |r| ==>
      && r[p].movie == ToResponse(rows[ranked[p].0], ranked[p].1)
      && r[p].matchScore == round1(ranked[p].1)
      && r[p].reason == GenerateReason(rows[ranked[p].0], mood, time, relaxed, ratingText)
  {
    seq(|ranked|, p requires 0 <= p < |ranked| =>
      var row := rows[ranked[p].0];
      SingleRecommendation(ToResponse(row, ranked[p].1), round1(ranked[p].1),
                           GenerateReason(row, mood, time, relaxed, ratingText)))
  }

  /** The answer once the mood and its candidates are known. */
  function Answer(req: Request, rows: seq<Row>, mood: string, similarity: nat -> real,
                  round1: real -> real, ratingText: real -> string): (r: RecommendationResponse)
    requires ValidRequest(req)
    ensures r.totalCandidates == |Candidates(rows, mood)|
    ensures r.filtersApplied == FiltersApplied(mood, req.timeAvailable, Selection(req, rows, mood).1)
    ensures |r.recommendations| == Min(req.topN, |Selection(req, rows, mood).0|)
    ensures forall p :: 0 <= p < |r.recommendations| ==>
      && r.recommendations[p].movie.similarityScore.Some?
      && r.recommendations[p].matchScore == round1(r.recommendations[p].movie.similarityScore.value)
    ensures forall p, q :: 0 <= p < q < |r.recommendations| ==>
      r.recommendations[p].movie.similarityScore.value >= r.recommendations[q].movie.similarityScore.value
  {
    var sel := Selection(req, rows, mood);
    var ranked := Ranked(req, rows, mood, similarity);
    var recs := BuildRecommendations(rows, ranked, mood, req.timeAvailable, sel.1, round1, ratingText);
    RecommendationResponse(recs, |Candidates(rows, mood)|, FiltersApplied(mood, req.timeAvailable, sel.1))
  }

  /** How fitting the content-based model on the request's movies ended:
      the similarity term it yields, or the message of the error the
      vectoriser raised (an empty vocabulary, for one). */
  datatype Fit = Fitted(similarity: nat -> real) | FitFailed(message: string)

  /** `get_recommendation`: the model is fitted on the movies first and a
      fit failure is the answer; then an unknown mood is the mapper's
      error, no tagged movie is the "No movies found" error, and otherwise
      the ranked answer. */
  function GetRecommendation(req: Request, fit: Fit, round1: real -> real,
                             ratingText: real -> string): (r: Result<RecommendationResponse, string>)
    requires ValidRequest(req)
    ensures fit.FitFailed? ==> r == Err(fit.message)
    ensures fit.Fitted? && PyMoodMapper.NormalizeMood(req.mood).Err? ==>
      r == Err(PyMoodMapper.NormalizeMood(req.mood).error)
    ensures fit.Fitted? && PyMoodMapper.NormalizeMood(req.mood).Ok? ==>
      var mood := PyMoodMapper.NormalizeMood(req.mood).value;
      && (r.Err? <==> Candidates(Rows(req.movies), mood) == [])
      && (r.Err? ==> r.error == NoMoviesMessage(req.mood))
      && (r.Ok? ==> r.value == Answer(req, Rows(req.movies), mood, fit.similarity, round1, ratingText))
  {
    match fit
    case FitFailed(m) => Err(m)
    case Fitted(similarity) =>
      match PyMoodMapper.NormalizeMood(req.mood)
      case Err(e) => Err(e)
      case Ok(mood) =>
        var rows := Rows(req.movies);
        if Candidates(rows, mood) == [] then Err(NoMoviesMessage(req.mood))
        else Ok(Answer(req, rows, mood, similarity, round1, ratingText))
  }

  /** Once the fit has succeeded, the mood is checked before the movies are
      filtered: an unknown mood gives the mapper's error whatever the movies
      are. The fit itself reads the movies and can fail first. */
  lemma UnknownMoodBeforeFiltering(req: Request, movies: seq<MovieInput>, similarity: nat -> real,
                                   round1: real -> real, ratingText: real -> string)
    requires ValidRequest(req)
    requires PyMoodMapper.NormalizeMood(req.mood).Err?
    ensures GetRecommendation(req, Fitted(similarity), round1, ratingText)
         == GetRecommendation(req.(movies := movies), Fitted(similarity), round1, ratingText)
    ensures GetRecommendation(req, Fitted(similarity), round1, ratingText).Err?
  {
  }

  /** The answer holds min(top_n, total_candidates) recommendations: when the
      time filter is kept it already leaves at least top_n movies. */
  lemma AnswerSize(req: Request, similarity: nat -> real, round1: real -> real, ratingText: real -> string)
    requires ValidRequest(req)
    ensures var r := GetRecommendation(req, Fitted(similarity), round1, ratingText);
      r.Ok? ==>
        && |r.value.recommendations| == Min(req.topN, r.value.totalCandidates)
        && r.value.totalCandidates >= 1
  {
    if GetRecommendation(req, Fitted(similarity), round1, ratingText).Ok? {
      var mood := PyMoodMapper.NormalizeMood(req.mood).value;
      var candidates := Candidates(Rows(req.movies), mood);
      var sel := TimeSelection(candidates, req.timeAvailable, req.topN);
      if !sel.1 {
        assert |FitsTime(candidates, req.timeAvailable)| <= |candidates|;
      }
    }
  }

  /** With distinct titles, the row behind each ranked pair is one of the
      kept candidates. */
  lemma RankedRowKept(req: Request, rows: seq<Row>, mood: string, similarity: nat -> real)
    requires ValidRequest(req)
    requires forall i, j :: 0 <= i < j < |rows| ==> rows[i].title != rows[j].title
    ensures var ranked := Ranked(req, rows, mood, similarity);
      forall p :: 0 <= p < |ranked| ==> rows[ranked[p].0] in Selection(req, rows, mood).0
  {
    var ranked := Ranked(req, rows, mood, similarity);
    var sel := Selection(req, rows, mood);
    CandidatesHaveTitles(rows, mood, sel.0);
    var n := Min(req.topN, |sel.0|);
    RecommendationsRanked(rows, sel.0, mood, req.timeAvailable, n, similarity);
    var order := Ranking.TopK(CandidateScores(rows, sel.0, mood, req.timeAvailable, similarity), n);
    forall p | 0 <= p < |ranked|
      ensures rows[ranked[p].0] in sel.0
    {
      var c := sel.0[order[p]];
      var idx := TitleIndex(rows, c.title);
      SubsequenceMembers(sel.0, Candidates(rows, mood), c);
      FilterMembers(rows, (row: Row) => TagMatches(row, mood));
      var i :| 0 <= i < |rows| && rows[i] == c;
    }
  }

  /** When the titles are distinct, each recommended movie is one of the
      kept candidates: tagged with the mood, and within an hour over the
      evening unless the time filter was relaxed. */
  lemma DistinctTitlesRecommendCandidates(req: Request, similarity: nat -> real, round1: real -> real,
                                          ratingText: real -> string)
    requires ValidRequest(req)
    requires forall i, j :: 0 <= i < j < |req.movies| ==> req.movies[i].title != req.movies[j].title
    ensures var r := GetRecommendation(req, Fitted(similarity), round1, ratingText);
      r.Ok? ==> forall p :: 0 <= p < |r.value.recommendations| ==>
        && (exists t :: t in r.value.recommendations[p].movie.moodTags && Lower(t) == r.value.filtersApplied.mood)
        && (!r.value.filtersApplied.timeConstraintRelaxed ==>
              r.value.recommendations[p].movie.runtime <= req.timeAvailable + 60)
  {
    if GetRecommendation(req, Fitted(similarity), round1, ratingText).Ok? {
      var mood := PyMoodMapper.NormalizeMood(req.mood).value;
      var rows := Rows(req.movies);
      var sel := Selection(req, rows, mood);
      var ranked := Ranked(req, rows, mood, similarity);
      RankedRowKept(req, rows, mood, similarity);
      FilterMembers(rows, (row: Row) => TagMatches(row, mood));
      var r := GetRecommendation(req, Fitted(similarity), round1, ratingText).value;
      forall p | 0 <= p < |r.recommendations|
        ensures exists t :: t in r.recommendations[p].movie.moodTags && Lower(t) == r.filtersApplied.mood
        ensures !r.filtersApplied.timeConstraintRelaxed ==> r.recommendations[p].movie.runtime <= req.timeAvailable + 60
      {
        var row := rows[ranked[p].0];
        SubsequenceMembers(sel.0, Candidates(rows, mood), row);
        assert TagMatches(row, mood);
        var k :| 0 <= k < |sel.0| && sel.0[k] == row;
        assert r.recommendations[p].movie == ToResponse(row, ranked[p].1);
      }
    }
  }

  /** A single kept candidate is reported under the first row bearing its
      title. */
  lemma RankedSingle(req: Request, rows: seq<Row>, mood: string, similarity: nat -> real)
    requires ValidRequest(req)
    requires |Selection(req, rows, mood).0| == 1
    ensures HasTitle(rows, Selection(req, rows, mood).0[0].title)
    ensures Ranked(req, rows, mood, similarity)[0].0 == TitleIndex(rows, Selection(req, rows, mood).0[0].title)
  {
    var sel := Selection(req, rows, mood);
    CandidatesHaveTitles(rows, mood, sel.0);
    assert sel.0[0] in sel.0;
    var order := Ranking.TopK(CandidateScores(rows, sel.0, mood, req.timeAvailable, similarity), 1);
    assert order[0] < 1;
  }

  /** With a repeated title the answer can show a movie that is not a
      candidate: here the untagged first row stands in for the tagged
      second one. */
  lemma RepeatedTitleShowsOtherMovie(similarity: nat -> real, round1: real -> real, ratingText: real -> string)
    ensures var untagged := MovieInput("Twin", None, None, None, Some([]), Some([]), Some([]), None, None, None);
      var tagged := MovieInput("Twin", None, None, None, Some([]), Some(["cozy"]), Some([]), None, None, None);
      var req := Request("cozy", 120, [untagged, tagged], 1, None);
      && GetRecommendation(req, Fitted(similarity), round1, ratingText).Ok?
      && GetRecommendation(req, Fitted(similarity), round1, ratingText).value.recommendations[0].movie.moodTags == []
  {
    var untagged := MovieInput("Twin", None, None, None, Some([]), Some([]), Some([]), None, None, None);
    var tagged := MovieInput("Twin", None, None, None, Some([]), Some(["cozy"]), Some([]), None, None, None);
    var req := Request("cozy", 120, [untagged, tagged], 1, None);
    var key := "cozy";
    LowerLetters(key);
    PyStripLetters(key);
    assert PyMoodMapper.NormalizeMood(req.mood) == Ok(key);
    var rows := Rows(req.movies);
    assert rows[1].moodTags == [key];
    assert TagMatches(rows[1], key);
    assert !TagMatches(rows[0], key);
    var candidates := Candidates(rows, key);
    assert candidates == [rows[1]] by {
      assert rows == [rows[0]] + [rows[1]];
      FilterAppend([rows[0]], [rows[1]], (row: Row) => TagMatches(row, key));
    }
    assert TitleIndex(rows, rows[1].title) == 0;
    var sel := Selection(req, rows, key);
    assert sel.0 == candidates;
    var ranked := Ranked(req, rows, key, similarity);
    assert |ranked| == 1;
    RankedSingle(req, rows, key, similarity);
    var r := Answer(req, rows, key, similarity, round1, ratingText);
    assert r.recommendations[0].movie == ToResponse(rows[0], ranked[0].1);
  }
}
