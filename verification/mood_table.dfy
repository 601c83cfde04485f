/** The alias table shared, entry for entry, by the Java `MoodMapper` and the
    Python `MoodMapper`: six canonical (backend) moods, each mapping to
    itself, plus the user-facing synonyms of each. */
module MoodTable {
  import opened Text

  const Aliases: map<string, string> := map[
    "cozy" := "cozy",
    "thrilling" := "thrilling",
    "laugh" := "laugh",
    "deep" := "deep",
    "escape" := "escape",
    "chill" := "chill",

    "cozy & warm" := "cozy",
    "cozy and warm" := "cozy",
    "warm" := "cozy",

    "edge of seat" := "thrilling",
    "edge-of-seat" := "thrilling",
    "thriller" := "thrilling",
    "suspense" := "thrilling",
    "intense" := "thrilling",

    "need laughs" := "laugh",
    "need-laughs" := "laugh",
    "funny" := "laugh",
    "comedy" := "laugh",
    "humor" := "laugh",

    "make me think" := "deep",
    "make-me-think" := "deep",
    "thoughtful" := "deep",
    "intellectual" := "deep",
    "profound" := "deep",

    "pure escapism" := "escape",
    "pure-escapism" := "escape",
    "escapism" := "escape",
    "adventure" := "escape",

    "background vibe" := "chill",
    "background-vibe" := "chill",
    "background" := "chill",
    "relaxing" := "chill",
    "mellow" := "chill"
  ]

  /** `getBackendMoods` / `get_backend_moods`, in their order. */
  const BackendMoods: seq<string> := ["cozy", "thrilling", "laugh", "deep", "escape", "chill"]

  /** `getUIFriendlyMoods` / `get_ui_friendly_moods`, in their order. */
  const UiFriendlyMoods: seq<string> :=
    ["Cozy & Warm", "Edge of Seat", "Need Laughs", "Make Me Think", "Pure Escapism", "Background Vibe"]

  /** Every alias resolves to one of the six backend moods. */
  lemma AliasValuesAreBackendMoods()
    ensures forall k :: k in Aliases ==> Aliases[k] in BackendMoods
  {
  }

  /** Each backend mood is a key of the table and maps to itself. */
  lemma BackendMoodsAreFixedPoints()
    ensures forall i :: 0 <= i < |BackendMoods| ==> BackendMoods[i] in Aliases && Aliases[BackendMoods[i]] == BackendMoods[i]
  {
  }

  /** Backend moods are already lower-case and have no padding, so neither
      lower-casing nor either trim changes them. */
  lemma BackendMoodsAreCanonical(m: string)
    requires m in BackendMoods
    ensures Lower(m) == m && JavaTrim(m) == m && PyStrip(m) == m
    ensures !IsBlank(m)
  {
    assert m == "cozy" || m == "thrilling" || m == "laugh" || m == "deep" || m == "escape" || m == "chill";
    LowerLetters(m);
  }

  lemma LowerLetters(m: string)
    requires m != [] && forall i :: 0 <= i < |m| ==> 'a' <= m[i] <= 'z'
    ensures Lower(m) == m && JavaTrim(m) == m && PyStrip(m) == m
    ensures !IsBlank(m)
  {
    LowerOfLowerIsIdentity(m);
    JavaTrimLetters(m);
    PyStripLetters(m);
  }

  lemma JavaTrimLetters(m: string)
    requires m != [] && forall i :: 0 <= i < |m| ==> 'a' <= m[i] <= 'z'
    ensures JavaTrim(m) == m
  {
    assert !IsJavaSpace(m[0]) && !IsJavaSpace(m[|m| - 1]);
    TrimByFixed(m, IsJavaSpace);
  }

  lemma PyStripLetters(m: string)
    requires m != [] && forall i :: 0 <= i < |m| ==> 'a' <= m[i] <= 'z'
    ensures PyStrip(m) == m
  {
    TrimByFixed(m, IsPyWhitespace);
  }

  /** `ui` lower-cases to a table key for `mood` that starts and ends with
      a letter, so neither trim touches it. */
  predicate LabelFor(ui: string, mood: string) {
    var k := Lower(ui);
    && k != []
    && 'a' <= k[0] <= 'z' && 'a' <= k[|k| - 1] <= 'z'
    && k in Aliases && Aliases[k] == mood
  }

  /** Each UI-friendly label lower-cases to the alias of the backend mood
      at its position. */
  lemma UiLabelsResolve(i: nat)
    requires i < |UiFriendlyMoods|
    ensures |UiFriendlyMoods| == |BackendMoods|
    ensures LabelFor(UiFriendlyMoods[i], BackendMoods[i])
  {
    if i == 0 { UiLabel0(); }
    else if i == 1 { UiLabel1(); }
    else if i == 2 { UiLabel2(); }
    else if i == 3 { UiLabel3(); }
    else if i == 4 { UiLabel4(); }
    else { UiLabel5(); }
  }

  // One lemma per label keeps each literal evaluation in a proof of its own.
  lemma UiLabel0()
    ensures LabelFor(UiFriendlyMoods[0], BackendMoods[0])
  {
    LowerMatches(UiFriendlyMoods[0], "cozy & warm");
  }

  lemma UiLabel1()
    ensures LabelFor(UiFriendlyMoods[1], BackendMoods[1])
  {
    LowerMatches(UiFriendlyMoods[1], "edge of seat");
  }

  lemma UiLabel2()
    ensures LabelFor(UiFriendlyMoods[2], BackendMoods[2])
  {
    LowerMatches(UiFriendlyMoods[2], "need laughs");
  }

  lemma UiLabel3()
    ensures LabelFor(UiFriendlyMoods[3], BackendMoods[3])
  {
    LowerMatches(UiFriendlyMoods[3], "make me think");
  }

  lemma UiLabel4()
    ensures LabelFor(UiFriendlyMoods[4], BackendMoods[4])
  {
    LowerMatches(UiFriendlyMoods[4], "pure escapism");
  }

  lemma UiLabel5()
    ensures LabelFor(UiFriendlyMoods[5], BackendMoods[5])
  {
    LowerMatches(UiFriendlyMoods[5], "background vibe");
  }
}
