/** The request and response schemas of the recommendation service: which
    fields are required, their defaults and their bounds. A JSON field is
    absent, null or given; parsing applies the defaults and the bounds. */
module Schemas {
  import opened Wrappers

  datatype Field<T> = Absent | Null | Given(value: T)

  /** The fields that can fail: `title` of a movie, then the request's
      `mood`, `time_available`, `movies` and `top_n`, in declaration order. */
  datatype FieldName = Title | Mood | TimeAvailable | Movies | TopN

  /** One validation failure, named by its field. Pydantic checks every field
      and reports all failures together, in the order the fields are declared;
      a movie's failures carry the movie's position in the list. */
  datatype ValidationError =
    | MissingField(name: FieldName)
    | WrongType(name: FieldName)
    | OutOfRange(name: FieldName)
    | InMovie(index: nat, error: ValidationError)

  /** The failure of a required field: "missing" when absent, a type error
      when null, none when given. */
  function Required<T>(name: FieldName, f: Field<T>): (r: seq<ValidationError>)
    ensures r == [] <==> f.Given?
    ensures |r| <= 1
  {
    match f
    case Absent => [MissingField(name)]
    case Null => [WrongType(name)]
    case Given(_) => []
  }

  // ---------------------------------------------------------------------
  // MovieInput

  /** A movie of the request: only the title is required. */
  datatype MovieInput = MovieInput(
    title: string, year: Option<int>, runtime: Option<int>, rating: Option<real>,
    genre: Option<seq<string>>, moodTags: Option<seq<string>>, platforms: Option<seq<string>>,
    description: Option<string>, aiDescription: Option<string>, imageUrl: Option<string>)

  datatype RawMovie = RawMovie(
    title: Field<string>, year: Field<int>, runtime: Field<int>, rating: Field<real>,
    genre: Field<seq<string>>, moodTags: Field<seq<string>>, platforms: Field<seq<string>>,
    description: Field<string>, aiDescription: Field<string>, imageUrl: Field<string>)

  /** An optional field: its default when absent, None when null. */
  function OptionalField<T>(f: Field<T>, default: Option<T>): (r: Option<T>)
    ensures f.Given? ==> r == Some(f.value)
    ensures f.Null? ==> r.None?
    ensures f.Absent? ==> r == default
  {
    match f
    case Absent => default
    case Null => None
    case Given(v) => Some(v)
  }

  function ParseMovieInput(raw: RawMovie): (r: Result<MovieInput, seq<ValidationError>>)
    ensures r.Err? <==> !raw.title.Given?
    ensures r.Err? ==> r.error == [if raw.title.Absent? then MissingField(Title) else WrongType(Title)]
    ensures r.Ok? ==> r.value.title == raw.title.value
    ensures r.Ok? ==>
      && r.value.year == OptionalField(raw.year, None)
      && r.value.runtime == OptionalField(raw.runtime, None)
      && r.value.rating == OptionalField(raw.rating, None)
      && r.value.imageUrl == OptionalField(raw.imageUrl, None)
    ensures r.Ok? ==>
      && r.value.genre == OptionalField(raw.genre, Some([]))
      && r.value.moodTags == OptionalField(raw.moodTags, Some([]))
      && r.value.platforms == OptionalField(raw.platforms, Some([]))
    ensures r.Ok? ==>
      && r.value.description == OptionalField(raw.description, Some(""))
      && r.value.aiDescription == OptionalField(raw.aiDescription, Some(""))
  {
    if !raw.title.Given? then Err(Required(Title, raw.title))
    else Ok(MovieInput(
      raw.title.value,
      OptionalField(raw.year, None), OptionalField(raw.runtime, None), OptionalField(raw.rating, None),
      OptionalField(raw.genre, Some([])), OptionalField(raw.moodTags, Some([])), OptionalField(raw.platforms, Some([])),
      OptionalField(raw.description, Some("")), OptionalField(raw.aiDescription, Some("")),
      OptionalField(raw.imageUrl, None)))
  }

  /** A movie given by its title alone: lists default to [], texts to "",
      the rest to None. */
  lemma MovieDefaults(title: string)
    ensures ParseMovieInput(RawMovie(Given(title), Absent, Absent, Absent, Absent, Absent, Absent, Absent, Absent, Absent))
      == Ok(MovieInput(title, None, None, None, Some([]), Some([]), Some([]), Some(""), Some(""), None))
  {
  }

  function EncodeField<T>(o: Option<T>): (f: Field<T>)
    ensures !f.Absent?
  {
    if o.Some? then Given(o.value) else Null
  }

  /** The JSON object of a movie, every field written out. */
  function EncodeMovie(m: MovieInput): RawMovie {
    RawMovie(Given(m.title), EncodeField(m.year), EncodeField(m.runtime), EncodeField(m.rating),
             EncodeField(m.genre), EncodeField(m.moodTags), EncodeField(m.platforms),
             EncodeField(m.description), EncodeField(m.aiDescription), EncodeField(m.imageUrl))
  }

  lemma MovieRoundTrip(m: MovieInput)
    ensures ParseMovieInput(EncodeMovie(m)) == Ok(m)
  {
  }

  /** The failures of one movie, tagged with its position. */
  function Located(i: nat, errors: seq<ValidationError>): (r: seq<ValidationError>)
    ensures |r| == |errors|
    ensures forall k :: 0 <= k < |r| ==> r[k] == InMovie(i, errors[k])
  {
    seq(|errors|, k requires 0 <= k < |errors| => InMovie(i, errors[k]))
  }

  /** The failures of one movie: only its title is required. */
  function TitleErrors(raw: RawMovie): (r: seq<ValidationError>)
    ensures r == [] <==> raw.title.Given?
    ensures r == [] <==> ParseMovieInput(raw).Ok?
    ensures ParseMovieInput(raw).Err? ==> ParseMovieInput(raw).error == r
  {
    Required(Title, raw.title)
  }

  /** The failures of every movie of the list, each tagged with its position,
      in list order. */
  function MovieErrors(raws: seq<RawMovie>): (r: seq<ValidationError>)
    ensures r == [] <==> forall i :: 0 <= i < |raws| ==> raws[i].title.Given?
    ensures forall k :: 0 <= k < |r| ==> r[k].InMovie?
    decreases |raws|
  {
    if raws == [] then []
    else
      var n := |raws| - 1;
      var prefix := raws[..n];
      assert forall i :: 0 <= i < n ==> prefix[i] == raws[i];
      MovieErrors(prefix) + Located(n, TitleErrors(raws[n]))
  }

  /** Each reported movie failure is a failure of the movie at its position. */
  lemma {:induction false} MovieErrorsSound(raws: seq<RawMovie>)
    ensures forall k :: 0 <= k < |MovieErrors(raws)| ==>
      MovieErrors(raws)[k].index < |raws| && MovieErrors(raws)[k].error in TitleErrors(raws[MovieErrors(raws)[k].index])
    decreases |raws|
  {
    if raws != [] {
      var n := |raws| - 1;
      MovieErrorsSound(raws[..n]);
      assert forall i :: 0 <= i < n ==> raws[..n][i] == raws[i];
      var before := MovieErrors(raws[..n]);
      var last := TitleErrors(raws[n]);
      assert MovieErrors(raws) == before + Located(n, last);
      forall k | 0 <= k < |MovieErrors(raws)|
        ensures MovieErrors(raws)[k].index < |raws|
        ensures MovieErrors(raws)[k].error in TitleErrors(raws[MovieErrors(raws)[k].index])
      {
        if k < |before| {
          assert MovieErrors(raws)[k] == before[k];
          assert before[k].index < n;
        } else {
          assert MovieErrors(raws)[k] == InMovie(n, last[k - |before|]);
        }
      }
    }
  }

  /** Every failure of every movie is reported, tagged with the movie's position. */
  lemma {:induction false} MovieErrorsComplete(raws: seq<RawMovie>)
    ensures forall i, e :: 0 <= i < |raws| && e in TitleErrors(raws[i]) ==> InMovie(i, e) in MovieErrors(raws)
    decreases |raws|
  {
    if raws != [] {
      var n := |raws| - 1;
      MovieErrorsComplete(raws[..n]);
      assert forall i :: 0 <= i < n ==> raws[..n][i] == raws[i];
      assert forall e :: e in TitleErrors(raws[n]) ==> InMovie(n, e) in Located(n, TitleErrors(raws[n]));
    }
  }

  /** The failures are listed in the order of the movies. */
  lemma {:induction false} MovieErrorsOrdered(raws: seq<RawMovie>)
    ensures forall k, l :: 0 <= k < l < |MovieErrors(raws)| ==> MovieErrors(raws)[k].index <= MovieErrors(raws)[l].index
    decreases |raws|
  {
    if raws != [] {
      var n := |raws| - 1;
      MovieErrorsOrdered(raws[..n]);
      MovieErrorsSound(raws[..n]);
      assert MovieErrors(raws) == MovieErrors(raws[..n]) + Located(n, TitleErrors(raws[n]));
    }
  }

  /** The movies of a request: all of them parsed, or the failures of every
      movie that fails. */
  function ParseMovies(raws: seq<RawMovie>): (r: Result<seq<MovieInput>, seq<ValidationError>>)
    ensures r.Ok? <==> forall i :: 0 <= i < |raws| ==> ParseMovieInput(raws[i]).Ok?
    ensures r.Ok? ==> |r.value| == |raws| && forall i :: 0 <= i < |raws| ==> Ok(r.value[i]) == ParseMovieInput(raws[i])
    ensures r.Err? ==> r.error == MovieErrors(raws)
  {
    var errors := MovieErrors(raws);
    if errors != [] then Err(errors)
    else Ok(seq(|raws|, i requires 0 <= i < |raws| => ParseMovieInput(raws[i]).value))
  }

  /** Two movies without a title are both reported, each at its position. */
  lemma EveryMovieReported(a: RawMovie, b: RawMovie, c: RawMovie)
    requires a.title.Absent? && b.title.Given? && c.title.Absent?
    ensures ParseMovies([a, b, c]) == Err([InMovie(0, MissingField(Title)), InMovie(2, MissingField(Title))])
  {
    var first := InMovie(0, MissingField(Title));
    var third := InMovie(2, MissingField(Title));
    assert MovieErrors([a]) == [first] by {
      MovieErrorsSnoc([], a);
      assert [] + [a] == [a];
    }
    assert MovieErrors([a, b]) == [first] by {
      MovieErrorsSnoc([a], b);
      assert [a] + [b] == [a, b];
    }
    assert MovieErrors([a, b, c]) == [first, third] by {
      MovieErrorsSnoc([a, b], c);
      assert [a, b] + [c] == [a, b, c];
      assert Located(2, [MissingField(Title)]) == [third];
    }
    assert !ParseMovieInput([a, b, c][0]).Ok?;
  }

  /** One more movie adds its own failures, at its position, at the end. */
  lemma MovieErrorsSnoc(raws: seq<RawMovie>, raw: RawMovie)
    ensures MovieErrors(raws + [raw]) == MovieErrors(raws) + Located(|raws|, TitleErrors(raw))
  {
    assert (raws + [raw])[..|raws|] == raws;
  }

  // ---------------------------------------------------------------------
  // RecommendationRequest

  datatype Request = Request(mood: string, timeAvailable: int, movies: seq<MovieInput>, topN: int, userId: Option<string>)

  datatype RawRequest = RawRequest(mood: Field<string>, timeAvailable: Field<int>, movies: Field<seq<RawMovie>>,
                                   topN: Field<int>, userId: Field<string>)

  const DefaultTopN := 5

  /** The bounds: 0 < time_available <= 500 and 1 <= top_n <= 10. */
  predicate ValidRequest(r: Request) {
    0 < r.timeAvailable <= 500 && 1 <= r.topN <= 10
  }

  /** Where a failure's field is declared among the request's fields: mood,
      time_available, movies (with the movies' own failures), top_n; a bare
      title failure belongs to a movie and ranks last. */
  function FieldRank(e: ValidationError): nat {
    if e.InMovie? then 2
    else match e.name
      case Mood => 0
      case TimeAvailable => 1
      case Movies => 2
      case TopN => 3
      case Title => 4
  }

  /** Every failure of a request, field by field in declaration order. */
  function RequestErrors(raw: RawRequest): (r: seq<ValidationError>)
    ensures r == [] <==>
      && raw.mood.Given?
      && raw.timeAvailable.Given? && 0 < raw.timeAvailable.value <= 500
      && raw.movies.Given? && ParseMovies(raw.movies.value).Ok?
      && (raw.topN.Absent? || (raw.topN.Given? && 1 <= raw.topN.value <= 10))
    ensures forall e :: e in r && e.InMovie? ==> raw.movies.Given? && e in MovieErrors(raw.movies.value)
    ensures raw.movies.Given? ==> forall e :: e in MovieErrors(raw.movies.value) ==> e in r
    ensures forall e :: e in r ==> FieldRank(e) < 4
    ensures RankSorted(r)
  {
    RequiredFields(Mood, raw.mood);
    RankedErrors(Required(Mood, raw.mood), TimeErrors(raw.timeAvailable), MoviesErrors(raw.movies), TopNErrors(raw.topN))
  }

  /** The mood is reported missing or null whatever the other fields hold. */
  lemma MoodErrorReported(raw: RawRequest)
    ensures var r := RequestErrors(raw);
      (MissingField(Mood) in r <==> raw.mood.Absent?) &&
      (WrongType(Mood) in r <==> raw.mood.Null?)
  {
    RequiredFields(Mood, raw.mood);
    var mood := Required(Mood, raw.mood);
    var time := TimeErrors(raw.timeAvailable);
    var movies := MoviesErrors(raw.movies);
    var topN := TopNErrors(raw.topN);
    assert RequestErrors(raw) == RankedErrors(mood, time, movies, topN);
    RankedMember(mood, time, movies, topN, MissingField(Mood));
    RankedMember(mood, time, movies, topN, WrongType(Mood));
  }

  /** time_available is reported missing, null or out of bounds whatever the other fields hold. */
  lemma TimeErrorReported(raw: RawRequest)
    ensures var r := RequestErrors(raw);
      (MissingField(TimeAvailable) in r <==> raw.timeAvailable.Absent?) &&
      (WrongType(TimeAvailable) in r <==> raw.timeAvailable.Null?) &&
      (OutOfRange(TimeAvailable) in r <==> raw.timeAvailable.Given? && !(0 < raw.timeAvailable.value <= 500))
  {
    var mood := Required(Mood, raw.mood);
    var time := TimeErrors(raw.timeAvailable);
    var movies := MoviesErrors(raw.movies);
    var topN := TopNErrors(raw.topN);
    assert RequestErrors(raw) == RankedErrors(mood, time, movies, topN);
    RankedMember(mood, time, movies, topN, MissingField(TimeAvailable));
    RankedMember(mood, time, movies, topN, WrongType(TimeAvailable));
    RankedMember(mood, time, movies, topN, OutOfRange(TimeAvailable));
  }

  /** The movie list is reported missing or null whatever the other fields hold. */
  lemma MoviesErrorReported(raw: RawRequest)
    ensures var r := RequestErrors(raw);
      (MissingField(Movies) in r <==> raw.movies.Absent?) &&
      (WrongType(Movies) in r <==> raw.movies.Null?)
  {
    var mood := Required(Mood, raw.mood);
    var time := TimeErrors(raw.timeAvailable);
    var movies := MoviesErrors(raw.movies);
    var topN := TopNErrors(raw.topN);
    assert RequestErrors(raw) == RankedErrors(mood, time, movies, topN);
    RankedMember(mood, time, movies, topN, MissingField(Movies));
    RankedMember(mood, time, movies, topN, WrongType(Movies));
  }

  /** top_n is reported null or out of bounds whatever the other fields hold. */
  lemma TopNErrorReported(raw: RawRequest)
    ensures var r := RequestErrors(raw);
      (WrongType(TopN) in r <==> raw.topN.Null?) &&
      (OutOfRange(TopN) in r <==> raw.topN.Given? && !(1 <= raw.topN.value <= 10))
  {
    var mood := Required(Mood, raw.mood);
    var time := TimeErrors(raw.timeAvailable);
    var movies := MoviesErrors(raw.movies);
    var topN := TopNErrors(raw.topN);
    assert RequestErrors(raw) == RankedErrors(mood, time, movies, topN);
    RankedMember(mood, time, movies, topN, WrongType(TopN));
    RankedMember(mood, time, movies, topN, OutOfRange(TopN));
  }

  /** A failure of a given field is reported exactly when that field reports it. */
  lemma RankedMember(mood: seq<ValidationError>, time: seq<ValidationError>,
                     movies: seq<ValidationError>, topN: seq<ValidationError>, e: ValidationError)
    requires forall e :: e in mood ==> FieldRank(e) == 0
    requires forall e :: e in time ==> FieldRank(e) == 1
    requires forall e :: e in movies ==> FieldRank(e) == 2
    requires forall e :: e in topN ==> FieldRank(e) == 3
    ensures FieldRank(e) == 0 ==> (e in RankedErrors(mood, time, movies, topN) <==> e in mood)
    ensures FieldRank(e) == 1 ==> (e in RankedErrors(mood, time, movies, topN) <==> e in time)
    ensures FieldRank(e) == 2 ==> (e in RankedErrors(mood, time, movies, topN) <==> e in movies)
    ensures FieldRank(e) == 3 ==> (e in RankedErrors(mood, time, movies, topN) <==> e in topN)
  {
  }

  /** The failures of `time_available`: required, and 0 < time <= 500. */
  function TimeErrors(f: Field<int>): (r: seq<ValidationError>)
    ensures r == [] <==> f.Given? && 0 < f.value <= 500
    ensures forall e :: e in r ==> FieldRank(e) == 1
    ensures MissingField(TimeAvailable) in r <==> f.Absent?
    ensures WrongType(TimeAvailable) in r <==> f.Null?
    ensures OutOfRange(TimeAvailable) in r <==> f.Given? && !(0 < f.value <= 500)
  {
    RequiredFields(TimeAvailable, f);
    Required(TimeAvailable, f) + (if f.Given? && !(0 < f.value <= 500) then [OutOfRange(TimeAvailable)] else [])
  }

  /** The failures of `movies`: required, and then every movie's own. */
  function MoviesErrors(f: Field<seq<RawMovie>>): (r: seq<ValidationError>)
    ensures r == [] <==> f.Given? && ParseMovies(f.value).Ok?
    ensures forall e :: e in r ==> FieldRank(e) == 2
    ensures MissingField(Movies) in r <==> f.Absent?
    ensures WrongType(Movies) in r <==> f.Null?
    ensures forall e :: e in r && e.InMovie? ==> f.Given? && e in MovieErrors(f.value)
    ensures f.Given? ==> forall e :: e in MovieErrors(f.value) ==> e in r
  {
    RequiredFields(Movies, f);
    if f.Given? then MovieErrors(f.value) else Required(Movies, f)
  }

  /** The failures of `top_n`: optional, but not null, and 1 <= top_n <= 10. */
  function TopNErrors(f: Field<int>): (r: seq<ValidationError>)
    ensures r == [] <==> f.Absent? || (f.Given? && 1 <= f.value <= 10)
    ensures forall e :: e in r ==> FieldRank(e) == 3
    ensures WrongType(TopN) in r <==> f.Null?
    ensures OutOfRange(TopN) in r <==> f.Given? && !(1 <= f.value <= 10)
  {
    if f.Null? then [WrongType(TopN)]
    else if f.Given? && !(1 <= f.value <= 10) then [OutOfRange(TopN)]
    else []
  }

  /** A required field fails with exactly one of the two failures named after it. */
  lemma RequiredFields<T>(name: FieldName, f: Field<T>)
    ensures forall e :: e in Required(name, f) ==> e == MissingField(name) || e == WrongType(name)
    ensures MissingField(name) in Required(name, f) <==> f.Absent?
    ensures WrongType(name) in Required(name, f) <==> f.Null?
  {
  }

  /** The failures are listed in the order their fields are declared. */
  predicate RankSorted(r: seq<ValidationError>) {
    forall k, l :: 0 <= k < l < |r| ==> FieldRank(r[k]) <= FieldRank(r[l])
  }

  /** Failures all of one field are trivially in order. */
  lemma SameRankSorted(r: seq<ValidationError>, rank: nat)
    requires forall e :: e in r ==> FieldRank(e) == rank
    ensures RankSorted(r)
  {
    forall k, l | 0 <= k < l < |r|
      ensures FieldRank(r[k]) <= FieldRank(r[l])
    {
      assert r[k] in r && r[l] in r;
    }
  }

  /** Two ordered lists, the first of lower rank, stay in order when joined. */
  lemma AppendRankSorted(a: seq<ValidationError>, b: seq<ValidationError>, rank: nat)
    requires RankSorted(a) && RankSorted(b)
    requires forall e :: e in a ==> FieldRank(e) <= rank
    requires forall e :: e in b ==> FieldRank(e) >= rank
    ensures RankSorted(a + b)
  {
    var r := a + b;
    forall k, l | 0 <= k < l < |r|
      ensures FieldRank(r[k]) <= FieldRank(r[l])
    {
      if l < |a| {
        assert r[k] == a[k] && r[l] == a[l];
      } else if k >= |a| {
        assert r[k] == b[k - |a|] && r[l] == b[l - |a|];
      } else {
        assert r[k] == a[k] && a[k] in a;
        assert r[l] == b[l - |a|] && b[l - |a|] in b;
      }
    }
  }

  /** Joins the failures of the four fields, which are ranked 0 to 3. */
  function RankedErrors(mood: seq<ValidationError>, time: seq<ValidationError>,
                        movies: seq<ValidationError>, topN: seq<ValidationError>): (r: seq<ValidationError>)
    requires forall e :: e in mood ==> FieldRank(e) == 0
    requires forall e :: e in time ==> FieldRank(e) == 1
    requires forall e :: e in movies ==> FieldRank(e) == 2
    requires forall e :: e in topN ==> FieldRank(e) == 3
    ensures r == [] <==> mood == [] && time == [] && movies == [] && topN == []
    ensures forall e :: e in r <==> e in mood || e in time || e in movies || e in topN
    ensures RankSorted(r)
  {
    SameRankSorted(mood, 0);
    SameRankSorted(time, 1);
    SameRankSorted(movies, 2);
    SameRankSorted(topN, 3);
    AppendRankSorted(mood, time, 1);
    AppendRankSorted(mood + time, movies, 2);
    AppendRankSorted(mood + time + movies, topN, 3);
    mood + time + movies + topN
  }

  function ParseRequest(raw: RawRequest): (r: Result<Request, seq<ValidationError>>)
    ensures r.Ok? <==>
      && raw.mood.Given?
      && raw.timeAvailable.Given? && 0 < raw.timeAvailable.value <= 500
      && raw.movies.Given? && ParseMovies(raw.movies.value).Ok?
      && (raw.topN.Absent? || (raw.topN.Given? && 1 <= raw.topN.value <= 10))
    ensures r.Ok? ==> ValidRequest(r.value)
    ensures r.Ok? ==> r.value.mood == raw.mood.value && r.value.timeAvailable == raw.timeAvailable.value
    ensures r.Ok? && raw.topN.Absent? ==> r.value.topN == DefaultTopN
    ensures r.Ok? && raw.topN.Given? ==> r.value.topN == raw.topN.value
    ensures r.Ok? ==> r.value.movies == ParseMovies(raw.movies.value).value
    ensures r.Ok? ==> r.value.userId == OptionalField(raw.userId, None)
    ensures r.Err? ==> r.error == RequestErrors(raw)
  {
    var errors := RequestErrors(raw);
    if errors != [] then Err(errors)
    else
      var topN := if raw.topN.Given? then raw.topN.value else DefaultTopN;
      Ok(Request(raw.mood.value, raw.timeAvailable.value, ParseMovies(raw.movies.value).value,
                 topN, OptionalField(raw.userId, None)))
  }

  /** A body without a mood and with no time at all fails on both fields at once. */
  lemma EveryFieldReported()
    ensures ParseRequest(RawRequest(Absent, Given(0), Given([]), Absent, Absent))
      == Err([MissingField(Mood), OutOfRange(TimeAvailable)])
  {
    var raw := RawRequest(Absent, Given(0), Given([]), Absent, Absent);
    assert Required(Mood, raw.mood) == [MissingField(Mood)];
    assert TimeErrors(raw.timeAvailable) == [OutOfRange(TimeAvailable)];
    assert MoviesErrors(raw.movies) == [];
    assert TopNErrors(raw.topN) == [];
    assert RequestErrors(raw) == [MissingField(Mood)] + [OutOfRange(TimeAvailable)] + [] + [];
    assert [MissingField(Mood)] + [OutOfRange(TimeAvailable)] + [] + [] == [MissingField(Mood), OutOfRange(TimeAvailable)];
  }

  /** An explicit null top_n is a type error, not the default. */
  lemma NullTopNRefused(raw: RawRequest)
    requires raw.topN.Null?
    ensures ParseRequest(raw).Err? && WrongType(TopN) in ParseRequest(raw).error
  {
    TopNErrorReported(raw);
  }

  function EncodeRequest(r: Request): RawRequest {
    RawRequest(Given(r.mood), Given(r.timeAvailable),
               Given(seq(|r.movies|, i requires 0 <= i < |r.movies| => EncodeMovie(r.movies[i]))),
               Given(r.topN), EncodeField(r.userId))
  }

  /** A valid request, written out and parsed again, is the same request;
      an invalid one is refused. */
  lemma RequestRoundTrip(r: Request)
    ensures ValidRequest(r) ==> ParseRequest(EncodeRequest(r)) == Ok(r)
    ensures ParseRequest(EncodeRequest(r)).Ok? <==> ValidRequest(r)
  {
    var raws := EncodeRequest(r).movies.value;
    forall i | 0 <= i < |raws|
      ensures ParseMovieInput(raws[i]) == Ok(r.movies[i])
    {
      MovieRoundTrip(r.movies[i]);
    }
    assert ParseMovies(raws).Ok?;
    assert ParseMovies(raws).value == r.movies;
  }

  // ---------------------------------------------------------------------
  // The response: every field required except similarity_score and image_url.

  datatype MovieResponse = MovieResponse(
    title: string, year: int, runtime: int, rating: real,
    genre: seq<string>, moodTags: seq<string>, platforms: seq<string>,
    description: string, aiDescription: string, similarityScore: Option<real>, imageUrl: Option<string>)

  datatype SingleRecommendation = SingleRecommendation(movie: MovieResponse, matchScore: real, reason: string)

  /** The `filters_applied` object. */
  datatype FiltersApplied = FiltersApplied(mood: string, timeAvailable: int, timeConstraintRelaxed: bool)

  datatype RecommendationResponse = RecommendationResponse(
    recommendations: seq<SingleRecommendation>, totalCandidates: int, filtersApplied: FiltersApplied)
}
