/** The Python `MoodMapper` of the recommendation service: the same alias
    table as the Java mapper, but an unknown label is an error (Python's
    `ValueError`) instead of passing through. */
module PyMoodMapper {
  import opened Wrappers
  import opened Text
  import opened MoodTable
  import MoodMapper

  /** The lookup key: Python `mood_input.lower().strip()`. */
  function PyKey(s: string): string {
    PyStrip(Lower(s))
  }

  /** Python `repr` of a string that holds no quote or backslash. */
  function Repr(s: string): string {
    "'" + s + "'"
  }

  /** Python `str` of a list of such strings: `['a', 'b']`. */
  function ReprList(xs: seq<string>): (r: string)
    ensures |r| >= 2 && r[0] == '[' && r[|r| - 1] == ']'
  {
    "[" + Join(", ", seq(|xs|, i requires 0 <= i < |xs| => Repr(xs[i]))) + "]"
  }

  /** The `ValueError` text for an unrecognised mood. */
  function UnrecognizedMessage(input: string): (r: string)
    ensures |r| > 6 + |input| && r[..6] == "Mood '" && r[6..6 + |input|] == input
  {
    "Mood '" + input + "' not recognized. Valid moods: " + ReprList(UiFriendlyMoods)
  }

  /** `normalize_mood`: the table entry for the key, or the error. */
  function NormalizeMood(input: string): (r: Result<string, string>)
    ensures r.Ok? <==> PyKey(input) in Aliases
    ensures r.Ok? ==> r.value in BackendMoods && r.value == Aliases[PyKey(input)]
    ensures r.Err? ==> r.error == UnrecognizedMessage(input)
  {
    var key := PyKey(input);
    if key in Aliases then
      AliasValuesAreBackendMoods();
      Ok(Aliases[key])
    else
      Err(UnrecognizedMessage(input))
  }

  /** A backend mood is its own key. */
  lemma BackendMoodIsOwnKey(m: string)
    requires m in BackendMoods
    ensures PyKey(m) == m && m in Aliases && Aliases[m] == m
  {
    BackendMoodsAreCanonical(m);
    BackendMoodsAreFixedPoints();
  }

  /** Normalising a successful result again returns it unchanged. */
  lemma NormalizeIdempotent(s: string)
    requires NormalizeMood(s).Ok?
    ensures NormalizeMood(NormalizeMood(s).value) == NormalizeMood(s)
  {
    BackendMoodIsOwnKey(NormalizeMood(s).value);
  }

  /** Each UI-friendly label normalises without error to the backend mood
      at its position. */
  lemma UiFriendlyNormalizesToBackend()
    ensures |UiFriendlyMoods| == |BackendMoods|
    ensures forall i :: 0 <= i < |UiFriendlyMoods| ==> NormalizeMood(UiFriendlyMoods[i]) == Ok(BackendMoods[i])
  {
    forall i | 0 <= i < |UiFriendlyMoods|
      ensures NormalizeMood(UiFriendlyMoods[i]) == Ok(BackendMoods[i])
    {
      UiLabelsResolve(i);
      LabelNormalizes(UiFriendlyMoods[i], BackendMoods[i]);
    }
  }

  lemma LabelNormalizes(ui: string, mood: string)
    requires LabelFor(ui, mood)
    ensures NormalizeMood(ui) == Ok(mood)
  {
    TrimByFixed(Lower(ui), IsPyWhitespace);
  }

  // ---------------------------------------------------------------------
  // Agreement with the Java mapper

  /** On input whose characters the two trims classify alike, both mappers
      use the same key: a table hit gives the same mood, and a miss is an
      error in Python but a pass-through of the key in Java. */
  lemma AgreesWithJava(s: string)
    requires forall i :: 0 <= i < |s| ==> (IsJavaSpace(s[i]) <==> IsPyWhitespace(s[i]))
    requires !IsBlank(s)
    ensures PyKey(s) == MoodMapper.Key(s)
    ensures NormalizeMood(s).Ok? ==> MoodMapper.NormalizeMood(Some(s)) == Some(NormalizeMood(s).value)
    ensures NormalizeMood(s).Err? ==> MoodMapper.NormalizeMood(Some(s)) == Some(PyKey(s))
    ensures NormalizeMood(s).Err? ==> PyKey(s) !in BackendMoods
  {
    var k := Lower(s);
    JavaSpaceLower();
    PySpaceLower();
    assert forall i :: 0 <= i < |k| ==> k[i] == LowerChar(s[i]);
    TrimByAgree(k, IsJavaSpace, IsPyWhitespace);
    BackendMoodsAreFixedPoints();
  }

  /** A label outside the table: Java passes "warmth" through, Python
      rejects it. */
  lemma UnknownLabelDiffers()
    ensures MoodMapper.NormalizeMood(Some("warmth")) == Some("warmth")
    ensures NormalizeMood("warmth").Err?
  {
    LowerLetters("warmth");
    assert "warmth" !in Aliases;
  }

  /** A trailing no-break space (U+00A0): Python's `strip` removes it, Java's
      `trim` keeps it, so only Python finds "cozy". */
  lemma NoBreakSpaceDiffers()
    ensures NormalizeMood("cozy\U{A0}") == Ok("cozy")
    ensures MoodMapper.NormalizeMood(Some("cozy\U{A0}")) == Some("cozy\U{A0}")
  {
    var s := "cozy\U{A0}";
    var c := "cozy";
    LowerMatches(s, s);
    LowerLetters(c);
    assert s[..4] == c;
    assert TrimStart(s, IsPyWhitespace) == s;
    assert TrimEnd(s, IsPyWhitespace) == TrimEnd(c, IsPyWhitespace);
    assert PyKey(s) == c;
    TrimByFixed(s, IsJavaSpace);
    assert MoodMapper.Key(s) == s;
    assert s !in Aliases;
  }

  // ---------------------------------------------------------------------
  // get_all_valid_inputs: the table keys in Python string order

  /** Python's `<` on strings: code point by code point, a proper prefix first. */
  predicate LexLess(a: string, b: string) {
    if a == [] then b != []
    else b != [] && (a[0] < b[0] || (a[0] == b[0] && LexLess(a[1..], b[1..])))
  }

  lemma {:induction false} LexLessIrreflexive(a: string)
    ensures !LexLess(a, a)
  {
    if a != [] {
      LexLessIrreflexive(a[1..]);
    }
  }

  lemma {:induction false} LexLessTransitive(a: string, b: string, c: string)
    requires LexLess(a, b) && LexLess(b, c)
    ensures LexLess(a, c)
  {
    if a != [] && a[0] == b[0] && b[0] == c[0] {
      LexLessTransitive(a[1..], b[1..], c[1..]);
    }
  }

  lemma {:induction false} LexLessTotal(a: string, b: string)
    requires a != b
    ensures LexLess(a, b) || LexLess(b, a)
  {
    if a != [] && b != [] && a[0] == b[0] {
      assert a == [a[0]] + a[1..] && b == [b[0]] + b[1..];
      LexLessTotal(a[1..], b[1..]);
    }
  }

  predicate StrictlySorted(xs: seq<string>) {
    forall i, j :: 0 <= i < j < |xs| ==> LexLess(xs[i], xs[j])
  }

  /** Places `x` in a strictly sorted list that does not hold it. */
  function InsertSorted(xs: seq<string>, x: string): (r: seq<string>)
    requires StrictlySorted(xs) && x !in xs
    ensures StrictlySorted(r)
    ensures |r| == |xs| + 1
    ensures forall y :: y in r <==> y == x || y in xs
  {
    if xs == [] then [x]
    else if LexLess(x, xs[0]) then
      assert forall j :: 0 < j < |xs| ==> LexLess(x, xs[j]) by {
        forall j | 0 < j < |xs| {
          LexLessTransitive(x, xs[0], xs[j]);
        }
      }
      [x] + xs
    else
      LexLessTotal(x, xs[0]);
      var rest := InsertSorted(xs[1..], x);
      forall j | 0 <= j < |rest|
        ensures LexLess(xs[0], rest[j])
      {
        if rest[j] != x {
          assert rest[j] in rest;
          var k :| 0 <= k < |xs[1..]| && xs[1..][k] == rest[j];
          assert xs[k + 1] == rest[j];
        }
      }
      [xs[0]] + rest
  }

  /** A strictly sorted list is determined by its elements, so there is only
      one possible answer for `sorted(keys)`. */
  lemma {:induction false} SortedUnique(a: seq<string>, b: seq<string>)
    requires StrictlySorted(a) && StrictlySorted(b)
    requires forall y :: y in a <==> y in b
    ensures a == b
    decreases |a|
  {
    NonEmptyHasHead(a);
    NonEmptyHasHead(b);
    if a != [] && b != [] {
      assert a[0] == b[0] by {
        if a[0] != b[0] {
          HeadLeast(b, a[0]);
          HeadLeast(a, b[0]);
          LexLessTransitive(a[0], b[0], a[0]);
          LexLessIrreflexive(a[0]);
        }
      }
      forall y
        ensures y in a[1..] <==> y in b[1..]
      {
        TailMembers(a, y);
        TailMembers(b, y);
      }
      SortedUnique(a[1..], b[1..]);
      assert a == [a[0]] + a[1..] && b == [b[0]] + b[1..];
    }
  }

  lemma NonEmptyHasHead(a: seq<string>)
    ensures a != [] ==> a[0] in a
  {
  }

  /** The head of a strictly sorted list precedes every other member. */
  lemma HeadLeast(a: seq<string>, y: string)
    requires StrictlySorted(a) && y in a && y != a[0]
    ensures LexLess(a[0], y)
  {
    var j :| 0 <= j < |a| && a[j] == y;
  }

  /** In a strictly sorted list, the tail holds exactly the other members. */
  lemma TailMembers(a: seq<string>, y: string)
    requires StrictlySorted(a) && a != []
    ensures y in a[1..] <==> y in a && y != a[0]
  {
    if y in a[1..] {
      var j :| 0 <= j < |a[1..]| && a[1..][j] == y;
      assert LexLess(a[0], a[j + 1]);
      LexLessIrreflexive(y);
    }
    if y in a && y != a[0] {
      var j :| 0 <= j < |a| && a[j] == y;
      assert a[1..][j - 1] == y;
    }
  }

  /** `get_all_valid_inputs`: every table key once, in ascending order. */
  method GetAllValidInputs() returns (r: seq<string>)
    ensures StrictlySorted(r)
    ensures forall k :: k in r <==> k in Aliases
    ensures |r| == |Aliases.Keys|
  {
    var remaining := Aliases.Keys;
    r := [];
    while remaining != {}
      invariant remaining <= Aliases.Keys
      invariant StrictlySorted(r)
      invariant forall k :: k in r <==> k in Aliases && k !in remaining
      invariant |r| + |remaining| == |Aliases.Keys|
      decreases |remaining|
    {
      var k :| k in remaining;
      r := InsertSorted(r, k);
      remaining := remaining - {k};
    }
  }
}
