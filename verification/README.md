# StreamPick core, modelled in Dafny

StreamPick recommends a movie for a mood and an evening's length, and emails
subscribers when a movie matching their moods is published. This project
models the deterministic core of its three parts:

- **Java backend.**
  - The permissive `MoodMapper`, which passes unknown moods through.
  - The `RecommendationService`: the ML path, or else the fallback scorer and top 5.
  - The `Movie` poster helper and the catalogue mood filter of `ContentstackService`.
  - The subscriber aggregate merge and mood filter of `SubscriberService`.
  - The status/message decision table of `SubscriberController`.
- **Python recommendation service.**
  - The strict `MoodMapper`, which rejects unknown moods.
  - The request/response schemas, with defaults and bounds.
  - `RecommendationEngine.get_recommendation`: defaults, mood filter, time relaxation, reasons.
  - The content-based model's features, profile, score terms and ranking.
- **React frontend.**
  - The featured/alternative index logic of `RecommendationCard`.
  - The mood toggle and subscribe outcome handling of `SubscriptionForm`.

The model uses immutable datatypes. The operations are pure functions, except four loops
written as methods: the duplicate scan, the payload loop, the alternative click and the sorted
list of valid inputs. I/O results are inputs:

- the catalogue fetched from the content store;
- the outcome of the remote ML call;
- the fetched subscriber entry;
- the outcome of the update request;
- today's date;
- the outcome of fitting the TF-IDF model: the similarity term, or the error the vectoriser raised;
- Python's rounding and float-to-text conversion.

A Java `null` is `None` of an `Option`. An exception is the `Err` of a
`Result`, or an explicit outcome constructor.

Modules (one per source unit):

| module | models |
|---|---|
| `Wrappers`, `Text`, `Seqs`, `Ranking`, `IsoDates` | shared helpers. ASCII case mapping, Java `trim` and Python `strip`, `String.join`, `split(",\\s*")`, order-preserving filter, stable descending top-k, ISO dates |
| `MoodTable` | the alias table shared by both mood mappers |
| `MoodMapper`, `PyMoodMapper` | the Java and Python mood mappers |
| `Movies`, `Catalogue`, `RecommendationService` | the Java movie, catalogue filter and recommendation service |
| `SubscriberService`, `SubscriberController` | subscriber storage and its HTTP endpoint |
| `Schemas`, `ContentBased`, `RecommendationEngine` | the Python service |
| `RecommendationCard`, `SubscriptionForm` | the two frontend components |

Behaviours the model keeps as written, and that a reader may not expect:

- The Java fallback compares the raw request mood with the tags. There is no trimming and no alias lookup.
- The Java and Python mood mappers disagree on unknown labels and on Unicode padding.
- `all_users` starts with ", " when the first stored block has no user.
- The Python ranking looks a candidate up by title, so with repeated titles the answer can show a movie that is not a candidate.
- A relaxed time filter calls a movie that is far too short "longer than requested".
- `RecommendationCard` renders once with the previous featured index before its reset runs. If the new list is shorter, that render fails.

## Model

| member | source | states |
|---|---|---|
| MoodTable.AliasValuesAreBackendMoods | backend/src/main/java/com/streampick/util/MoodMapper.java:14-54 | every alias in the table resolves to one of the six backend moods |
| MoodTable.BackendMoodsAreFixedPoints | recommendation-service/app/services/mood_mapper.py:9-51 | each backend mood is a key of the table and maps to itself |
| MoodTable.BackendMoodsAreCanonical | backend/src/main/java/com/streampick/util/MoodMapper.java:165-167 | backend moods are lower-case and unpadded, so lower-casing and both trims leave them unchanged and they are not blank |
| MoodMapper.NormalizeMood | backend/src/main/java/com/streampick/util/MoodMapper.java:63-73 | null exactly for null or whitespace-only input; otherwise the table entry for lower(trim(x)), or that key itself when it is not in the table; the result is a backend mood iff the key is in the table |
| MoodMapper.NormalizeIdempotent | backend/src/main/java/com/streampick/util/MoodMapper.java:63-73 | normalising a normalised non-blank mood returns it unchanged, for passed-through moods too |
| MoodMapper.NormalizeIgnoresCaseAndPadding | backend/src/main/java/com/streampick/util/MoodMapper.java:68-72 | surrounding Java whitespace and ASCII case do not change the result |
| MoodMapper.NormalizeList | backend/src/main/java/com/streampick/util/MoodMapper.java:86-93 | never longer than the input, no empty entry, and a mood occurs in it iff some input entry normalises to it |
| MoodMapper.NormalizeMoods | backend/src/main/java/com/streampick/util/MoodMapper.java:81-94 | null gives the empty list; otherwise the list is never lengthened |
| MoodMapper.NormalizeListAppend | backend/src/main/java/com/streampick/util/MoodMapper.java:87-92 | normalisation distributes over concatenation, so input order is kept |
| MoodMapper.NormalizeListNoBlanks | backend/src/main/java/com/streampick/util/MoodMapper.java:87-92 | with no blank entry nothing is dropped and entry i is the normalisation of input i |
| MoodMapper.AnyIn | backend/src/main/java/com/streampick/util/MoodMapper.java:114-120 | the contains-loop is true iff some element of the first list occurs in the second |
| MoodMapper.HasMatchingMood | backend/src/main/java/com/streampick/util/MoodMapper.java:103-121 | false when either list is null or empty; otherwise true iff the normalised lists share a mood |
| MoodMapper.HasMatchingMoodSymmetric | backend/src/main/java/com/streampick/util/MoodMapper.java:103-121 | matching is symmetric in its two arguments |
| MoodMapper.GetMatchingMoods | backend/src/main/java/com/streampick/util/MoodMapper.java:130-146 | empty for a null list; otherwise a subsequence of the normalised user moods, each present in the other list, with every present user mood kept with its multiplicity |
| MoodMapper.MatchingIffHasMatching | backend/src/main/java/com/streampick/util/MoodMapper.java:130-146 | for non-null lists the matches are non-empty iff hasMatchingMood holds |
| MoodTable.UiLabelsResolve | backend/src/main/java/com/streampick/util/MoodMapper.java:151-167 | the UI list and the backend list have one length, and the i-th UI label lower-cases to an alias of the i-th backend mood |
| MoodMapper.LabelNormalizes | backend/src/main/java/com/streampick/util/MoodMapper.java:63-73 | a label whose lower-case form is an unpadded alias normalises to that alias's mood |
| MoodMapper.UiFriendlyNormalizesToBackend | backend/src/main/java/com/streampick/util/MoodMapper.java:151-167 | the i-th UI label normalises to the i-th backend mood |
| PyMoodMapper.UnrecognizedMessage | recommendation-service/app/services/mood_mapper.py:75-78 | the error text starts with "Mood '" followed by the raw input |
| PyMoodMapper.NormalizeMood | recommendation-service/app/services/mood_mapper.py:54-78 | succeeds iff lower(strip(x)) is a key, with the table entry, which is a backend mood; otherwise fails with the unrecognised-mood message |
| PyMoodMapper.BackendMoodIsOwnKey | recommendation-service/app/services/mood_mapper.py:9-16 | a backend mood is its own key and maps to itself |
| PyMoodMapper.NormalizeIdempotent | recommendation-service/app/services/mood_mapper.py:68-72 | normalising a successful result again returns it unchanged |
| PyMoodMapper.LabelNormalizes | recommendation-service/app/services/mood_mapper.py:67-72 | a label whose lower-case form is an unpadded alias normalises without error to that alias's mood |
| PyMoodMapper.UiFriendlyNormalizesToBackend | recommendation-service/app/services/mood_mapper.py:81-95 | each UI label normalises without error to the backend mood at its position |
| PyMoodMapper.AgreesWithJava | recommendation-service/app/services/mood_mapper.py:68-78 | where the two trims agree, both mappers agree on known moods; on an unknown mood Python fails while Java passes the key through, and that key is not a backend mood |
| PyMoodMapper.UnknownLabelDiffers | recommendation-service/app/services/mood_mapper.py:74-78 | "warmth" is passed through by Java and rejected by Python |
| PyMoodMapper.NoBreakSpaceDiffers | recommendation-service/app/services/mood_mapper.py:68 | Python's strip removes a trailing U+00A0 that Java's trim keeps, so the two mappers disagree |
| PyMoodMapper.GetAllValidInputs | recommendation-service/app/services/mood_mapper.py:97-100 | strictly ascending, each table key once and nothing else |
| Movies.ImageUrl | backend/src/main/java/com/streampick/model/Movie.java:50-55 | the "url" entry of the image object; null when there is no image or no "url" key |
| Movies.PosterImage | backend/src/main/java/com/streampick/service/RecommendationService.java:137-142 | the image object is rebuilt iff the URL is non-null, with "url" as its only key |
| Movies.PosterRoundTrip | backend/src/main/java/com/streampick/service/RecommendationService.java:137-142 | setting the rebuilt image makes getImageUrl return the URL sent |
| Movies.PosterRebuildKeepsUrl | backend/src/main/java/com/streampick/model/Movie.java:50-53 | reading the URL and rebuilding keeps the URL and drops every other key |
| Catalogue.GetMoviesByMood | backend/src/main/java/com/streampick/service/ContentstackService.java:128-152 | empty for a null or blank mood and for an empty catalogue; an order-preserving subsequence whose movies each have a tag equal to lower(trim(mood)) when lower-cased; every such movie is kept with its multiplicity |
| Catalogue.Complete | backend/src/main/java/com/streampick/service/ContentstackService.java:143-148 | every catalogue movie with a matching tag is returned |
| Catalogue.MoodCaseAndPaddingIgnored | backend/src/main/java/com/streampick/service/ContentstackService.java:143 | "  Cozy " filters like "cozy" |
| Catalogue.AliasNotConsulted | backend/src/main/java/com/streampick/service/ContentstackService.java:143-147 | the UI label "Cozy & Warm" finds no movie tagged "cozy" |
| Catalogue.TagsNotTrimmed | backend/src/main/java/com/streampick/service/ContentstackService.java:145-147 | a tag " cozy" does not match the mood "cozy" |
| RecommendationService.SimpleScore | backend/src/main/java/com/streampick/service/RecommendationService.java:189-214 | at most 100; non-negative when the rating is absent or non-negative; a mood match with such a rating scores at least 50, no match with a rating of at most 10 scores at most 50; a match, rating 10 and the exact runtime score exactly 100 |
| RecommendationService.RuntimeOverflowFits | backend/src/main/java/com/streampick/service/RecommendationService.java:204-207 | the runtime difference is taken in 32-bit int: a runtime of -2147483647 against one minute overflows, Math.abs stays negative, and the movie gets the full 20 points |
| RecommendationService.RuntimePointsPlain | backend/src/main/java/com/streampick/service/RecommendationService.java:204-211 | without overflow the runtime term is 20 within 20 minutes, 10 within 40, else 0 |
| RecommendationService.ScoreMonotoneInRating | backend/src/main/java/com/streampick/service/RecommendationService.java:199-201 | a higher rating never lowers the score |
| RecommendationService.MoodTermIgnoresAliases | backend/src/main/java/com/streampick/service/RecommendationService.java:193-196 | the raw request mood is compared: "Edge of Seat" earns 0 against "thrilling", while "THRILLING" earns 50 |
| RecommendationService.FallbackOrder | backend/src/main/java/com/streampick/service/RecommendationService.java:165-168 | min(5, n) distinct candidate positions in non-increasing score order, equal scores in input order |
| RecommendationService.FallbackRecommendation | backend/src/main/java/com/streampick/service/RecommendationService.java:151-184 | fails with "No movies found matching your preferences..." iff there are no candidates; otherwise source "fallback", totalCandidates = the candidate count, and one entry per ranked candidate |
| RecommendationService.FallbackShape | backend/src/main/java/com/streampick/service/RecommendationService.java:165-183 | min(5, candidates) entries, each a candidate, with aiReason = aiDescription and matchScore = its score, in non-increasing order |
| RecommendationService.FallbackDominates | backend/src/main/java/com/streampick/service/RecommendationService.java:165-168 | no candidate left out outscores a chosen one, and of two equal scores at the cut the earlier candidate is kept |
| RecommendationService.ConvertToMovieInput | backend/src/main/java/com/streampick/service/RecommendationService.java:92-105 | the fields copied and the poster sent as its URL |
| RecommendationService.BuildPythonRequest | backend/src/main/java/com/streampick/service/RecommendationService.java:63-74 | every catalogue movie converted in order, topN 5, mood, time and user copied |
| RecommendationService.ConvertPythonMovie | backend/src/main/java/com/streampick/service/RecommendationService.java:126-142 | the rebuilt movie has no uid and its getImageUrl is the URL received |
| RecommendationService.ConvertPythonRecommendation | backend/src/main/java/com/streampick/service/RecommendationService.java:120-149 | fails exactly when the movie is null; otherwise reason and score are copied and the poster URL is kept |
| RecommendationService.ConvertPythonResponse | backend/src/main/java/com/streampick/service/RecommendationService.java:107-118 | source "ml", totalCandidates copied, recommendations converted one to one in order |
| RecommendationService.MlAnswer | backend/src/main/java/com/streampick/service/RecommendationService.java:54-87 | an answer iff the call returned a non-null body with a non-null list whose entries all carry a movie |
| RecommendationService.GetRecommendation | backend/src/main/java/com/streampick/service/RecommendationService.java:42-52 | the ML answer when there is one, otherwise the fallback, whose error propagates |
| RecommendationService.SourceTellsPath | backend/src/main/java/com/streampick/service/RecommendationService.java:42-52 | source "ml" iff the ML path answered and "fallback" otherwise; an error only when both the ML path and the catalogue filter come up empty |
| RecommendationService.EchoRoundTrip | backend/src/main/java/com/streampick/service/RecommendationService.java:92-142 | a movie sent out and echoed back is the same movie except for the lost uid and the image reduced to its URL |
| Ranking.TopK | recommendation-service/app/models/content_based.py:138-141 | the positions of the k best scores, without repeats, in non-increasing order with ties in input order |
| Ranking.TopKDominates | recommendation-service/app/models/content_based.py:138-141 | no position left out outscores a chosen one, and a left-out position tying with a chosen one comes after it |
| Ranking.TopKComplete | recommendation-service/app/models/content_based.py:138-141 | with no cut every position is chosen |
| Text.Join | backend/src/main/java/com/streampick/service/SubscriberService.java:119 | the join of one item is the item, of none is "" |
| Text.JoinAppend | backend/src/main/java/com/streampick/service/SubscriberService.java:119 | joining one more item appends the separator and the item |
| Text.JoinItems | recommendation-service/app/services/recommendation_engine.py:204-206 | every item occurs in the joined text, the first item starts it and the last one ends it |
| Text.SplitCommaSpace | backend/src/main/java/com/streampick/service/SubscriberService.java:288 | a string without a comma splits to itself alone; no piece holds a comma |
| Text.SplitJoinRoundTrip | backend/src/main/java/com/streampick/service/SubscriberService.java:288 | splitting the ", "-joined moods on ",\s*" gives the moods back, for moods without commas or leading whitespace and without a trailing empty one |
| IsoDates.FormatIsoDate | backend/src/main/java/com/streampick/service/SubscriberService.java:120 | "yyyy-MM-dd" with dashes six and three characters from the end; a leading digit iff the year is at most 9999 |
| IsoDates.IsoDateRoundTrip | backend/src/main/java/com/streampick/service/SubscriberService.java:120 | the written date reads back as the date |
| SubscriberService.FindSubscribed | backend/src/main/java/com/streampick/service/SubscriberService.java:103-112 | the scan finds a block iff some stored email equals the new one ignoring case, and stops at the first |
| SubscriberService.WriteUser | backend/src/main/java/com/streampick/service/SubscriberService.java:143-147 | name, email, moods and date are each the stored value, or "" when the stored user lacks it |
| SubscriberService.WriteBlock | backend/src/main/java/com/streampick/service/SubscriberService.java:139-158 | a block without a user is written as an empty block |
| SubscriberService.NewUserBlock | backend/src/main/java/com/streampick/service/SubscriberService.java:115-122 | the new user carries the email, the moods joined with ", " and a date that reads back as today |
| SubscriberService.WriteDetails | backend/src/main/java/com/streampick/service/SubscriberService.java:137-161 | the loop writes every block in order and gathers all_users |
| SubscriberService.AllUsersIsJoin | backend/src/main/java/com/streampick/service/SubscriberService.java:151-155 | when every block has a user, all_users is the ", "-join of the emails |
| SubscriberService.PayloadAllUsersIsJoin | backend/src/main/java/com/streampick/service/SubscriberService.java:137-161 | when every block holds a user, the payload's all_users is the ", "-join of the written emails |
| SubscriberService.LeadingSeparator | backend/src/main/java/com/streampick/service/SubscriberService.java:152-155 | a first block without a user makes all_users start with ", " |
| SubscriberService.Payload | backend/src/main/java/com/streampick/service/SubscriberService.java:129-167 | title "Subscribers", every block written in order, and all_users gathered from them |
| SubscriberService.AddSubscriber | backend/src/main/java/com/streampick/service/SubscriberService.java:66-190 | a failed fetch returns false without an update; a fetch exception is rethrown with its message; a known email throws "This email is already subscribed!" without an update; otherwise the payload of the old blocks plus the new one is sent and the update's answer decides |
| SubscriberService.AddedUserIsLast | backend/src/main/java/com/streampick/service/SubscriberService.java:114-125 | old blocks keep their order and the new user comes last, with the joined moods and today's date |
| SubscriberService.FirstSubscriber | backend/src/main/java/com/streampick/service/SubscriberService.java:98-100 | a missing user_details acts as an empty list: one block, and all_users is the email |
| SubscriberService.AllUsersAfterAdd | backend/src/main/java/com/streampick/service/SubscriberService.java:135-161 | with users in every block, all_users lists every email in order, the new one last |
| SubscriberService.AddThenDuplicate | backend/src/main/java/com/streampick/service/SubscriberService.java:103-112 | after an accepted add, the same email in any case is refused |
| SubscriberService.ReadBackAfterAdd | backend/src/main/java/com/streampick/service/SubscriberService.java:137-159 | after an add each old block keeps its user presence, its user's name, email, moods and date come back as written by optString, a complete old block comes back unchanged, and the list ends with the new email |
| SubscriberService.WriteReadBack | backend/src/main/java/com/streampick/service/SubscriberService.java:137-159 | writing a list of blocks whose users have every field and reading it back gives the list itself |
| SubscriberService.AddKeepsEmailsUnique | backend/src/main/java/com/streampick/service/SubscriberService.java:102-125 | adding keeps stored emails unique ignoring case |
| SubscriberService.StoredSubscribers | backend/src/main/java/com/streampick/service/SubscriberService.java:279-285 | one subscriber per block that holds a user, in stored order: the k-th is read from the k-th such block, with its moods split on ",\s*" |
| SubscriberService.StoredSubscriberMembers | backend/src/main/java/com/streampick/service/SubscriberService.java:279-285 | a subscriber is listed iff some block holds a user read as it |
| SubscriberService.GetSubscribersByMoods | backend/src/main/java/com/streampick/service/SubscriberService.java:249-310 | empty on a failed fetch, an exception or a missing user_details; otherwise, in stored order, exactly the users whose split moods match the tags |
| SubscriberService.AddedUserFoundByMoods | backend/src/main/java/com/streampick/service/SubscriberService.java:285-294 | an added user is found by the filter iff its moods match the tags |
| SubscriberController.AddSubscriber | backend/src/main/java/com/streampick/controller/SubscriberController.java:40-83 | a blank name gives 400 "Name is required" and is checked before the email, which gives 400 "Email is required"; service true gives 200 with the email echoed; false gives 500 "Failed to subscribe..."; an exception gives 500 with its message |
| SubscriberController.InvalidRequestSkipsService | backend/src/main/java/com/streampick/controller/SubscriberController.java:46-57 | an invalid request gets 400 whatever the service would do |
| SubscriberController.DuplicateEmailAnswer | backend/src/main/java/com/streampick/controller/SubscriberController.java:77-81 | a known email ends in 500 with the duplicate message |
| SubscriberController.FilterSubscribersByMoods | backend/src/main/java/com/streampick/controller/SubscriberController.java:124-160 | success with totalMatching = the number of matches, listed in service order; on failure success false, 0 and an empty list |
| SubscriberController.FilterAlwaysSucceeds | backend/src/main/java/com/streampick/controller/SubscriberController.java:131-151 | the service catches its failures, so the endpoint answers 200 with exactly the matches |
| Schemas.OptionalField | recommendation-service/app/schemas/recommendation.py:10-19 | an absent field takes its default, null gives None, a given value is kept |
| Schemas.ParseMovieInput | recommendation-service/app/schemas/recommendation.py:8-19 | fails iff the title is not given, with a "missing" failure when it is absent and a type failure when it is null; otherwise the title is kept and each optional field is its given value, None for null, or its default when absent (None for year, runtime, rating and image, [] for the lists, "" for the descriptions) |
| Schemas.MovieDefaults | recommendation-service/app/schemas/recommendation.py:8-19 | a title-only movie has empty lists and texts and no year, runtime, rating or image |
| Schemas.MovieRoundTrip | recommendation-service/app/schemas/recommendation.py:8-19 | a movie written out and parsed is the same movie |
| Schemas.TitleErrors | recommendation-service/app/schemas/recommendation.py:8-10 | a movie fails exactly when its title is not given, and its failures are those of the title |
| Schemas.MovieErrors | recommendation-service/app/schemas/recommendation.py:35-38 | the movie list has no failure iff every title is given, and every reported failure is tagged as a movie's |
| Schemas.MovieErrorsSound | recommendation-service/app/schemas/recommendation.py:35-38 | each reported movie failure is a failure of the movie at the position it names |
| Schemas.MovieErrorsComplete | recommendation-service/app/schemas/recommendation.py:35-38 | every failure of every movie is reported, tagged with that movie's position |
| Schemas.MovieErrorsOrdered | recommendation-service/app/schemas/recommendation.py:35-38 | movie failures are listed in the order of the movies |
| Schemas.MovieErrorsSnoc | recommendation-service/app/schemas/recommendation.py:35-38 | one more movie appends its own failures, at its position, after the others |
| Schemas.ParseMovies | recommendation-service/app/schemas/recommendation.py:35-38 | succeeds iff every movie parses, with entry i being movie i; otherwise fails with the failures of every failing movie |
| Schemas.EveryMovieReported | recommendation-service/app/schemas/recommendation.py:35-38 | movies 0 and 2 without a title are both reported, as movies 0 and 2 |
| Schemas.RequestErrors | recommendation-service/app/schemas/recommendation.py:22-45 | no failure iff mood, time and movies are given, 0 < time <= 500, every movie parses and top_n is absent or in 1..10; every movie failure is reported and nothing else of a movie; failures are listed in the order the fields are declared |
| Schemas.MoodErrorReported | recommendation-service/app/schemas/recommendation.py:24-28 | the mood is reported missing iff absent and as a type failure iff null, whatever the other fields hold |
| Schemas.TimeErrorReported | recommendation-service/app/schemas/recommendation.py:29-34 | time_available is reported missing iff absent, as a type failure iff null, and out of bounds iff given outside 0 < t <= 500, whatever the other fields hold |
| Schemas.MoviesErrorReported | recommendation-service/app/schemas/recommendation.py:35-38 | the movie list is reported missing iff absent and as a type failure iff null, whatever the other fields hold |
| Schemas.TopNErrorReported | recommendation-service/app/schemas/recommendation.py:39-44 | top_n is reported as a type failure iff null and out of bounds iff given outside 1..10, whatever the other fields hold |
| Schemas.RankedErrors | recommendation-service/app/schemas/recommendation.py:22-45 | joining the four fields' failures keeps every failure and lists them field by field |
| Schemas.ParseRequest | recommendation-service/app/schemas/recommendation.py:22-45 | succeeds iff mood, time and movies are given, 0 < time <= 500, every movie parses and top_n is absent or in 1..10; then the movies are the parsed movies, top_n is the given value or 5, and user_id is the given one or None; otherwise fails with every failure of the request |
| Schemas.EveryFieldReported | recommendation-service/app/schemas/recommendation.py:22-34 | a body without a mood and with time 0 fails on both fields, in declaration order |
| Schemas.NullTopNRefused | recommendation-service/app/schemas/recommendation.py:39-44 | an explicit null top_n is refused as a type failure rather than taking the default |
| Schemas.RequestRoundTrip | recommendation-service/app/schemas/recommendation.py:29-44 | a request written out parses back to itself iff it is within the bounds |
| ContentBased.Features | recommendation-service/app/models/content_based.py:71-91 | genres three times, tags three times, then the description and the AI description |
| ContentBased.CombinedWithoutLists | recommendation-service/app/models/content_based.py:82-91 | with no genres or tags the text is the two descriptions joined by a space |
| ContentBased.UserProfile | recommendation-service/app/models/content_based.py:143-154 | the mood three times, then " short quick" below 100 minutes, " epic long immersive" above 150, else nothing |
| ContentBased.ProfileHintExactlyOutside | recommendation-service/app/models/content_based.py:149-152 | the profile grows iff the time is outside 100..150 |
| ContentBased.RuntimeTerm | recommendation-service/app/models/content_based.py:190-201 | between -5 and 10; negative iff the runtime is over an hour too long; zero iff it is over an hour too short |
| ContentBased.RuntimeTermMonotone | recommendation-service/app/models/content_based.py:193-199 | within an hour either way, a closer runtime never scores less |
| ContentBased.MovieScoreBounds | recommendation-service/app/models/content_based.py:172-203 | with a rating in 0..10 and a similarity in 0..30 the score lies in -5..100 |
| ContentBased.MoodMatchIgnoresCase | recommendation-service/app/models/content_based.py:175-177 | a tag equal to the mood ignoring case earns the 40 points |
| ContentBased.TitleIndex | recommendation-service/app/models/content_based.py:126 | the first catalogue row with the title |
| ContentBased.CandidateScores | recommendation-service/app/models/content_based.py:123-136 | one score per candidate: the candidate's own fields with the similarity of the first catalogue row bearing its title |
| ContentBased.GetRecommendations | recommendation-service/app/models/content_based.py:95-141 | fails with "Model not trained..." iff unfitted; otherwise min(top_n, candidates) pairs of catalogue indexes in non-increasing score order |
| ContentBased.RecommendationsRanked | recommendation-service/app/models/content_based.py:123-141 | each pair comes from a distinct candidate, left-out candidates never outscore chosen ones, ties keep candidate order, and of two equal scores at the cut the earlier candidate is kept |
| ContentBased.DuplicateTitlesShareIndex | recommendation-service/app/models/content_based.py:124-126 | the second of two rows with one title is reported under the first row's index |
| RecommendationEngine.TitleOnlyDefaults | recommendation-service/app/services/recommendation_engine.py:45-57 | a title-only movie gets 2020, 120 minutes, rating 7.0, empty lists and texts |
| RecommendationEngine.ZeroIsDefaulted | recommendation-service/app/services/recommendation_engine.py:48-50 | a zero year, runtime or rating is replaced as if missing |
| RecommendationEngine.TruthyKept | recommendation-service/app/services/recommendation_engine.py:48-50 | non-zero values are kept |
| RecommendationEngine.Rows | recommendation-service/app/services/recommendation_engine.py:44-57 | one defaulted row per movie, in order |
| RecommendationEngine.TimeSelection | recommendation-service/app/services/recommendation_engine.py:90-105 | relaxed iff fewer than top_n candidates fit runtime <= time + 60; relaxed keeps every candidate; otherwise exactly the fitting candidates, each with its multiplicity, in order, and at least top_n of them |
| RecommendationEngine.ReasonParts | recommendation-service/app/services/recommendation_engine.py:178-200 | one part per reason that applies, in the order mood, rating, runtime, genres, each at its position with its text |
| RecommendationEngine.GenerateReason | recommendation-service/app/services/recommendation_engine.py:202-206 | every reason that applies appears in the text; it starts with the AI description and a space when there is one, else with the mood reason when the mood matches; the genre reason ends it; with no reason an AI description is left with a dangling space |
| RecommendationEngine.Explain | recommendation-service/app/services/recommendation_engine.py:202-206 | for any description and parts: the description and a space lead when there is a description, every part occurs, the first part leads otherwise, the last part ends the text |
| RecommendationEngine.ShortMovieCalledLonger | recommendation-service/app/services/recommendation_engine.py:191-195 | with relaxation, a movie more than 20 minutes too short is called "longer than requested" |
| RecommendationEngine.Ranked | recommendation-service/app/services/recommendation_engine.py:109-119 | min(top_n, kept) catalogue indexes in non-increasing score order |
| RecommendationEngine.BuildRecommendations | recommendation-service/app/services/recommendation_engine.py:123-159 | one entry per ranked pair: the row with its similarity score, the score rounded, and its reason |
| RecommendationEngine.Answer | recommendation-service/app/services/recommendation_engine.py:109-171 | total_candidates counts the mood candidates before the time filter; filters_applied holds the normalised mood, the time and the relaxed flag; min(top_n, kept) entries in non-increasing score order, each match_score the rounded score |
| RecommendationEngine.GetRecommendation | recommendation-service/app/services/recommendation_engine.py:30-175 | a failed fit is the answer; otherwise an unknown mood is the mapper's error, no tagged movie fails with the "No movies found..." message, and otherwise the answer |
| RecommendationEngine.UnknownMoodBeforeFiltering | recommendation-service/app/services/recommendation_engine.py:68-80 | once the fit has succeeded, an unknown mood fails with the mapper's error whatever the movies are |
| RecommendationEngine.AnswerSize | recommendation-service/app/services/recommendation_engine.py:80-111 | the answer holds min(top_n, total_candidates) entries, and there is at least one candidate |
| RecommendationEngine.RankedRowKept | recommendation-service/app/models/content_based.py:123-126 | with distinct titles each ranked index is the row of a kept candidate |
| RecommendationEngine.RankedSingle | recommendation-service/app/models/content_based.py:123-126 | a single kept candidate is reported under the first row bearing its title |
| RecommendationEngine.DistinctTitlesRecommendCandidates | recommendation-service/app/services/recommendation_engine.py:76-127 | with distinct titles every recommended movie has a tag that lower-cases to the normalised mood, and runs at most time + 60 minutes unless the filter was relaxed |
| RecommendationEngine.RepeatedTitleShowsOtherMovie | recommendation-service/app/models/content_based.py:124-126 | with a repeated title the answer shows the untagged first row in place of the tagged candidate |
| RecommendationCard.Alternatives | frontend/src/components/RecommendationCard.jsx:73 | every entry but the featured one, in order: n-1 entries, entry k being entry k or k+1 of the list |
| RecommendationCard.Render | frontend/src/components/RecommendationCard.jsx:61-73 | nothing for a missing or empty list; a failure for a featured index beyond the list; else the featured entry and n-1 alternatives drawn from the list |
| RecommendationCard.AlternativeClick | frontend/src/components/RecommendationCard.jsx:76-89 | the loop finds the index that Clicked describes |
| RecommendationCard.ClickFeaturesAlternative | frontend/src/components/RecommendationCard.jsx:76-89 | clicking alternative k features an in-range index other than the current one, and that entry is the alternative clicked |
| RecommendationCard.OutOfRangeClickFeaturesFirst | frontend/src/components/RecommendationCard.jsx:78-89 | a click outside the alternatives features index 0 |
| RecommendationCard.ReceiveResets | frontend/src/components/RecommendationCard.jsx:14-17 | a new recommendation resets the index to 0; then the first entry is featured with the rest as alternatives, and no click makes the card fail |
| RecommendationCard.StaleIndexBeforeReset | frontend/src/components/RecommendationCard.jsx:66-70 | the render before the reset uses the old index, so a shorter new list fails |
| SubscriptionForm.Toggle | frontend/src/components/SubscriptionForm.jsx:32-39 | an absent mood is appended at the end; a present one is removed everywhere and the others keep their order and counts |
| SubscriptionForm.ToggleFlipsOne | frontend/src/components/SubscriptionForm.jsx:35-37 | exactly the toggled mood changes membership |
| SubscriptionForm.ToggleTwiceRestores | frontend/src/components/SubscriptionForm.jsx:32-39 | selecting and deselecting a mood restores the list |
| SubscriptionForm.ReselectMovesToEnd | frontend/src/components/SubscriptionForm.jsx:35-37 | deselecting and reselecting a mood moves it to the end |
| SubscriptionForm.ToggleKeepsDistinct | frontend/src/components/SubscriptionForm.jsx:32-39 | a list without repeats stays without repeats |
| SubscriptionForm.MessageOr | frontend/src/components/SubscriptionForm.jsx:58 | the message when present and non-empty, else the default |
| SubscriptionForm.Subscribe | frontend/src/components/SubscriptionForm.jsx:41-81 | success iff status 200 and success is truthy, which clears the form and starts the confetti; otherwise the form is kept and data.message or the failure text is shown; a thrown error shows the fixed oops text |
| SubscriptionForm.AcceptedClearsForm | frontend/src/components/SubscriptionForm.jsx:56-65 | an add the endpoint accepts clears the form and shows the endpoint's message |

## Left out

- Content-store I/O: the SDK callback, latch timeout and Gson mapping of `ContentstackService.getAllMovies`. The catalogue is an input sequence.
- Management-API plumbing: client setup, Retrofit calls and JSON library conversions. `SubscriberService` takes fetch and update outcomes as inputs.
- `getSubscriberCount` in the service and its controller endpoint: plumbing only.
- Concurrent adds to the subscriber entry. Their read-modify-write race is concurrency; one sequential add is modelled.
- The HTTP call to the ML service and its timeouts are an outcome parameter.
- The assumption that the catalogue fetched for the ML path and the one fetched for the fallback are the same. The model passes one catalogue to both.
- The FastAPI wiring of the Python service and the other controllers.
- TF-IDF vectorisation and cosine similarity are numerics. The fit's outcome is a parameter: `similarity(i)` for catalogue row `i`, or the vectoriser's error.
- RecommendationEngine.GetRecommendation: which movie lists make the TF-IDF fit fail, for example one with no indexable word, is not computed. The fit outcome is an input, checked before the mood as in the source.
- Java `int` width: only the runtime difference of `calculateSimpleScore` is computed in 32-bit arithmetic. Runtimes and times are assumed to be Java `int` values already; other Java integers, such as list sizes, cannot overflow in practice.
- Python `round(x, 1)` and the float-to-text conversion in the rating reason are parameters.
- Floating point in general: scores and ratings are exact reals.
- Unicode case mapping: lower-casing is ASCII only.
- `LocalDate.now()` is a date parameter.
- The `Date` type: the model checks month and day ranges only, not days per month.
- PyMoodMapper.UnrecognizedMessage: Python's `repr` is modelled for labels without quotes or backslashes, which covers the six UI labels.
- Movies.ImageUrl: an image "url" entry that is not a string, which would fail the cast, is not modelled.
- Null elements inside Java lists, and a null `preferredMoods` list in `addSubscriber`, which would fail inside `String.join`, are not modelled.
- Pydantic type coercion, for example "5" read as 5, is not modelled. Fields arrive with their declared types.
- Schemas.RequestErrors: a failure names its field, its kind and, for a movie, the movie's position. Pydantic's message texts, error type codes and input echoes are not modelled.
- The `MovieResponse`, `SingleRecommendation` and `RecommendationResponse` schemas are datatypes with the required fields. Their validation is not modelled further.
- Whether a non-2xx answer reaches the form's else-branch or its catch depends on the HTTP client, and `services/api` is not part of this model. The form takes the outcome as an input.
- Rendering, styling, scrolling, the confetti timer and loading states of the frontend.
