/** The content-based recommender of the recommendation service, over rows
    whose fields the engine has already defaulted. The TF-IDF similarity term
    is a parameter: `similarity(i)` stands for thirty times the mean of the
    ten largest cosine similarities of catalogue row `i`. */
module ContentBased {
  import opened Wrappers
  import opened Text
  import opened Ranking

  /** A catalogue row (one DataFrame row). */
  datatype Row = Row(
    title: string, year: int, runtime: int, rating: real,
    genre: seq<string>, moodTags: seq<string>, platforms: seq<string>,
    description: string, aiDescription: string, imageUrl: Option<string>)

  // ---------------------------------------------------------------------
  // _create_combined_features

  /** The feature words of a row: genres three times, tags three times, then
      the description and the AI description. */
  function Features(row: Row): (r: seq<string>)
    ensures var g := |row.genre|; var t := |row.moodTags|;
      && |r| == 3 * g + 3 * t + 2
      && (forall k :: 0 <= k < 3 * g ==> r[k] == row.genre[k % g])
      && (forall k :: 0 <= k < 3 * t ==> r[3 * g + k] == row.moodTags[k % t])
      && r[3 * g + 3 * t] == row.description
      && r[3 * g + 3 * t + 1] == row.aiDescription
  {
    var g := row.genre;
    var t := row.moodTags;
    var r := g + g + g + t + t + t + [row.description, row.aiDescription];
    assert forall k :: 0 <= k < 3 * |g| ==> r[k] == g[k % |g|] by {
      forall k | 0 <= k < 3 * |g|
        ensures r[k] == g[k % |g|]
      {
        Thirds(g, k);
      }
    }
    assert forall k :: 0 <= k < 3 * |t| ==> r[3 * |g| + k] == t[k % |t|] by {
      forall k | 0 <= k < 3 * |t|
        ensures r[3 * |g| + k] == t[k % |t|]
      {
        Thirds(t, k);
        assert r[3 * |g| + k] == (t + t + t)[k];
      }
    }
    r
  }

  lemma Thirds(xs: seq<string>, k: int)
    requires 0 <= k < 3 * |xs|
    ensures (xs + xs + xs)[k] == xs[k % |xs|]
  {
    var n := |xs|;
    if k < n {
      assert k % n == k;
    } else if k < 2 * n {
      assert k % n == k - n;
    } else {
      assert k % n == k - 2 * n;
    }
  }

  /** The text the vectoriser reads: the features joined with single spaces. */
  function CombinedFeatures(row: Row): string {
    Join(" ", Features(row))
  }

  /** A row without genres or tags reads as its two descriptions. */
  lemma CombinedWithoutLists(row: Row)
    requires row.genre == [] && row.moodTags == []
    ensures CombinedFeatures(row) == row.description + " " + row.aiDescription
  {
    assert Features(row) == [row.description, row.aiDescription];
    assert Features(row)[1..] == [row.aiDescription];
  }

  // ---------------------------------------------------------------------
  // _create_user_profile

  function TimeHint(time: int): (r: string)
    ensures time < 100 ==> r == " short quick"
    ensures time > 150 ==> r == " epic long immersive"
    ensures 100 <= time <= 150 ==> r == ""
  {
    if time < 100 then " short quick" else if time > 150 then " epic long immersive" else ""
  }

  /** The mood three times, then a hint for short or long evenings. */
  function UserProfile(mood: string, time: int): (r: string)
    ensures |r| >= 3 * |mood| + 2
    ensures r[..3 * |mood| + 2] == mood + " " + mood + " " + mood
    ensures r[3 * |mood| + 2..] == TimeHint(time)
  {
    var head := mood + " " + mood + " " + mood;
    var r := head + TimeHint(time);
    assert r[..|head|] == head;
    r
  }

  /** The profile grows only when the evening is short or long. */
  lemma ProfileHintExactlyOutside(mood: string, time: int)
    ensures |UserProfile(mood, time)| == 3 * |mood| + 2 <==> 100 <= time <= 150
  {
    var r := UserProfile(mood, time);
    assert |r| == 3 * |mood| + 2 + |r[3 * |mood| + 2..]|;
  }

  // ---------------------------------------------------------------------
  // _calculate_movie_score

  /** `user_mood.lower() in [tag.lower() for tag in tags]`. */
  predicate MoodMatch(row: Row, mood: string) {
    exists t :: t in row.moodTags && Lower(t) == Lower(mood)
  }

  function MoodTerm(row: Row, mood: string): real {
    if MoodMatch(row, mood) then 40.0 else 0.0
  }

  function QualityTerm(row: Row): real {
    row.rating / 10.0 * 20.0
  }

  /** The runtime fit: +10, +7 or +4 within 20, 40 or 60 minutes, -5 when
      more than an hour too long, and nothing when more than an hour short. */
  function RuntimeTerm(runtime: int, time: int): (r: real)
    ensures -5.0 <= r <= 10.0
    ensures r < 0.0 <==> runtime > time + 60
    ensures r == 0.0 <==> runtime < time - 60
  {
    var diff := if runtime >= time then runtime - time else time - runtime;
    if diff <= 20 then 10.0
    else if diff <= 40 then 7.0
    else if diff <= 60 then 4.0
    else if runtime > time + 60 then -5.0
    else 0.0
  }

  /** Within an hour either way, a closer runtime never scores less. */
  lemma RuntimeTermMonotone(a: int, b: int, time: int)
    requires time - 60 <= a <= time + 60 && time - 60 <= b <= time + 60
    requires (if a >= time then a - time else time - a) <= (if b >= time then b - time else time - b)
    ensures RuntimeTerm(a, time) >= RuntimeTerm(b, time)
  {
  }

  /** The four terms summed: mood, similarity, quality and runtime fit. */
  function MovieScore(row: Row, mood: string, time: int, similarity: real): real {
    MoodTerm(row, mood) + similarity + QualityTerm(row) + RuntimeTerm(row.runtime, time)
  }

  /** With a rating out of ten and a similarity of at most 30, the score
      stays within -5 and 100. */
  lemma MovieScoreBounds(row: Row, mood: string, time: int, similarity: real)
    requires 0.0 <= row.rating <= 10.0 && 0.0 <= similarity <= 30.0
    ensures -5.0 <= MovieScore(row, mood, time, similarity) <= 100.0
  {
  }

  /** The mood term ignores ASCII case on both sides. */
  lemma MoodMatchIgnoresCase(row: Row, mood: string, t: string)
    requires t in row.moodTags && EqualsIgnoreCase(t, mood)
    ensures MoodTerm(row, mood) == 40.0
  {
  }

  // ---------------------------------------------------------------------
  // get_recommendations

  const NotTrainedMessage := "Model not trained. Call fit() first."

  /** Some row of the catalogue has this title. */
  predicate HasTitle(catalogue: seq<Row>, title: string) {
    exists i :: 0 <= i < |catalogue| && catalogue[i].title == title
  }

  /** The first catalogue row with the title. */
  function TitleIndex(catalogue: seq<Row>, title: string): (i: nat)
    requires HasTitle(catalogue, title)
    ensures i < |catalogue| && catalogue[i].title == title
    ensures forall j :: 0 <= j < i ==> catalogue[j].title != title
  {
    if catalogue[0].title == title then 0
    else
      assert HasTitle(catalogue[1..], title) by {
        var i :| 0 <= i < |catalogue| && catalogue[i].title == title;
        assert catalogue[1..][i - 1].title == title;
      }
      1 + TitleIndex(catalogue[1..], title)
  }

  function CandidateScores(catalogue: seq<Row>, candidates: seq<Row>, mood: string, time: int,
                           similarity: nat -> real): (r: seq<real>)
    requires forall c :: c in candidates ==> HasTitle(catalogue, c.title)
    ensures |r| == |candidates|
    ensures forall p :: 0 <= p < |r| ==>
      r[p] == MovieScore(candidates[p], mood, time, similarity(TitleIndex(catalogue, candidates[p].title)))
  {
    seq(|candidates|, p requires 0 <= p < |candidates| =>
      MovieScore(candidates[p], mood, time, similarity(TitleIndex(catalogue, candidates[p].title))))
  }

  /** `get_recommendations`: each candidate scored with its own fields and
      the similarity of the first catalogue row bearing its title; the best
      `topN` (row index, score) pairs, ties in candidate order. */
  function GetRecommendations(fitted: bool, catalogue: seq<Row>, candidates: seq<Row>, mood: string,
                              time: int, topN: nat, similarity: nat -> real): (r: Result<seq<(nat, real)>, string>)
    requires forall c :: c in candidates ==> HasTitle(catalogue, c.title)
    ensures !fitted <==> r.Err?
    ensures r.Err? ==> r.error == NotTrainedMessage
    ensures r.Ok? ==>
      && |r.value| == (if |candidates| < topN then |candidates| else topN)
      && (forall p :: 0 <= p < |r.value| ==> r.value[p].0 < |catalogue|)
      && (forall p, q :: 0 <= p < q < |r.value| ==> r.value[p].1 >= r.value[q].1)
  {
    if !fitted then Err(NotTrainedMessage)
    else
      var scores := CandidateScores(catalogue, candidates, mood, time, similarity);
      var order := TopK(scores, topN);
      Ok(seq(|order|, p requires 0 <= p < |order| =>
        (TitleIndex(catalogue, candidates[order[p]].title), scores[order[p]])))
  }

  /** Every pair comes from a distinct candidate, no candidate left out
      outscores a chosen one, and equal scores keep candidate order. */
  lemma RecommendationsRanked(catalogue: seq<Row>, candidates: seq<Row>, mood: string, time: int,
                              topN: nat, similarity: nat -> real)
    requires forall c :: c in candidates ==> HasTitle(catalogue, c.title)
    ensures var scores := CandidateScores(catalogue, candidates, mood, time, similarity);
      var order := TopK(scores, topN);
      var r := GetRecommendations(true, catalogue, candidates, mood, time, topN, similarity).value;
      && |order| == |r|
      && (forall p :: 0 <= p < |r| ==>
            order[p] < |candidates| && r[p] == (TitleIndex(catalogue, candidates[order[p]].title), scores[order[p]]))
      && (forall p, q :: 0 <= p < q < |r| ==> order[p] != order[q])
      && (forall p, q :: 0 <= p < q < |r| && r[p].1 == r[q].1 ==> order[p] < order[q])
      && (forall p, j :: 0 <= p < |r| && 0 <= j < |candidates| && j !in order ==> r[p].1 >= scores[j])
      && (forall p, j :: 0 <= p < |r| && 0 <= j < |candidates| && j !in order && r[p].1 == scores[j] ==> order[p] < j)
  {
    var scores := CandidateScores(catalogue, candidates, mood, time, similarity);
    var order := TopK(scores, topN);
    forall p, j | 0 <= p < |order| && 0 <= j < |candidates| && j !in order
      ensures scores[order[p]] >= scores[j]
      ensures scores[order[p]] == scores[j] ==> order[p] < j
    {
      TopKDominates(scores, topN, p, j);
    }
  }

  /** Two catalogue rows with one title share an index: the second is never
      reported. */
  lemma DuplicateTitlesShareIndex(a: Row, b: Row, mood: string, time: int, similarity: nat -> real)
    requires a.title == b.title && a != b
    ensures HasTitle([a, b], b.title)
    ensures var r := GetRecommendations(true, [a, b], [b], mood, time, 1, similarity).value;
      |r| == 1 && r[0].0 == 0
  {
    assert HasTitle([a, b], b.title) by {
      assert [a, b][0].title == b.title;
    }
  }
}
