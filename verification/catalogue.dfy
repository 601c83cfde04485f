/** `ContentstackService.getMoviesByMood` with the fetched catalogue as a
    parameter: the movies having a mood tag that, lower-cased, equals the
    lower-cased and trimmed mood. Tags are not trimmed and the alias table is
    not consulted. */
module Catalogue {
  import opened Wrappers
  import opened Text
  import opened Seqs
  import opened Movies

  /** Some tag of `m`, lower-cased, equals `key`. */
  predicate HasTag(m: Movie, key: string) {
    m.moodTags.Some? && exists t :: t in m.moodTags.value && Lower(t) == key
  }

  /** The mood as the filter compares it: `mood.toLowerCase().trim()`. */
  function MoodKey(mood: string): string {
    JavaTrim(Lower(mood))
  }

  function GetMoviesByMood(mood: Option<string>, all: seq<Movie>): (r: seq<Movie>)
    ensures mood.None? || IsBlank(mood.value) ==> r == []
    ensures all == [] ==> r == []
    ensures IsSubsequence(r, all)
    ensures mood.Some? ==> forall i :: 0 <= i < |r| ==> HasTag(r[i], MoodKey(mood.value))
    ensures mood.Some? && !IsBlank(mood.value) ==>
      forall m :: multiset(r)[m] == if HasTag(m, MoodKey(mood.value)) then multiset(all)[m] else 0
  {
    if mood.None? || IsBlank(mood.value) then []
    else if all == [] then []
    else
      var key := MoodKey(mood.value);
      Filter(all, m => HasTag(m, key))
  }

  /** Completeness: every catalogue movie with a matching tag is returned. */
  lemma Complete(mood: string, all: seq<Movie>, m: Movie)
    requires !IsBlank(mood) && m in all && HasTag(m, MoodKey(mood))
    ensures m in GetMoviesByMood(Some(mood), all)
  {
    assert multiset(all)[m] > 0;
  }

  /** The filter is case-insensitive in the mood and ignores its padding. */
  lemma MoodCaseAndPaddingIgnored(all: seq<Movie>)
    ensures GetMoviesByMood(Some("  Cozy "), all) == GetMoviesByMood(Some("cozy"), all)
  {
    PaddedCozyKey();
  }

  lemma PaddedCozyKey()
    ensures MoodKey("  Cozy ") == MoodKey("cozy") == "cozy"
    ensures !IsBlank("  Cozy ") && !IsBlank("cozy")
  {
    var a := "  Cozy ";
    var b := "cozy";
    LowerMatches(a, "  cozy ");
    LowerMatches(b, b);
    assert TrimStart("  cozy ", IsJavaSpace) == "cozy ";
    assert TrimEnd("cozy ", IsJavaSpace) == b;
    TrimByFixed(b, IsJavaSpace);
    assert TrimStart(a, IsJavaSpace) == "Cozy ";
    assert TrimEnd("Cozy ", IsJavaSpace) == "Cozy";
  }

  /** A UI-friendly label is not resolved through the alias table: a movie
      tagged "cozy" does not match the mood "Cozy & Warm". */
  lemma AliasNotConsulted(m: Movie)
    requires m.moodTags == Some(["cozy"])
    ensures GetMoviesByMood(Some("Cozy & Warm"), [m]) == []
  {
    var key := "cozy & warm";
    LowerMatches("Cozy & Warm", key);
    TrimByFixed(key, IsJavaSpace);
    LowerMatches("cozy", "cozy");
    assert !HasTag(m, key);
  }

  /** Tags are not trimmed: " cozy" does not match the mood "cozy". */
  lemma TagsNotTrimmed(m: Movie)
    requires m.moodTags == Some([" cozy"])
    ensures GetMoviesByMood(Some("cozy"), [m]) == []
  {
    LowerMatches("cozy", "cozy");
    TrimByFixed("cozy", IsJavaSpace);
    LowerMatches(" cozy", " cozy");
    assert !HasTag(m, "cozy");
  }
}
