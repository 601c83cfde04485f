/** The Java `MoodMapper`: permissive normalisation (unknown labels pass
    through lower-cased and trimmed) and mood-list matching. A Java list
    that may be null is an `Option<seq<string>>`. */
module MoodMapper {
  import opened Wrappers
  import opened Text
  import opened Seqs
  import opened MoodTable

  /** The lookup key: Java `moodInput.toLowerCase().trim()`. */
  function Key(s: string): string {
    JavaTrim(Lower(s))
  }

  function NormalizeMood(input: Option<string>): (r: Option<string>)
    ensures r.None? <==> input.None? || IsBlank(input.value)
    ensures r.Some? ==> r.value != []
    ensures r.Some? ==> (r.value in BackendMoods <==> Key(input.value) in Aliases)
    ensures r.Some? && Key(input.value) in Aliases ==> r.value == Aliases[Key(input.value)]
    ensures r.Some? && Key(input.value) !in Aliases ==> r.value == Key(input.value)
  {
    if input.None? || IsBlank(input.value) then None
    else
      var key := Key(input.value);
      KeyFacts(input.value);
      if key in Aliases then
        AliasValuesAreBackendMoods();
        BackendMoodsAreCanonical(Aliases[key]);
        LowerIsLower(Aliases[key]);
        Some(Aliases[key])
      else
        NotKeyNotBackend(key);
        Some(key)
  }

  /** What the key of a non-blank input looks like. */
  lemma KeyFacts(s: string)
    requires !IsBlank(s)
    ensures Key(s) != [] && IsLower(Key(s)) && JavaTrim(Key(s)) == Key(s)
    ensures !IsBlank(Key(s))
  {
    JavaSpaceLower();
    LowerTrimCommute(s, IsJavaSpace);
    var k := Key(s);
    assert k == Lower(JavaTrim(s));
    LowerIsLower(JavaTrim(s));
    TrimByEnds(Lower(s), IsJavaSpace);
    TrimByFixed(k, IsJavaSpace);
  }

  lemma NotKeyNotBackend(k: string)
    requires k !in Aliases
    ensures k !in BackendMoods
  {
    BackendMoodsAreFixedPoints();
  }

  /** A key-shaped string (non-empty, lower-case, trimmed) is looked up
      as it is. */
  lemma NormalizeKeyShaped(t: string)
    requires t != [] && IsLower(t) && JavaTrim(t) == t
    ensures NormalizeMood(Some(t)) == Some(if t in Aliases then Aliases[t] else t)
  {
    LowerOfLowerIsIdentity(t);
    assert Key(t) == t;
  }

  /** What normalisation returns is itself key-shaped, and a canonical
      mood maps to itself. */
  lemma NormalizedIsKeyShaped(s: string)
    requires !IsBlank(s)
    ensures var r := NormalizeMood(Some(s)).value;
      r != [] && IsLower(r) && JavaTrim(r) == r && (r in Aliases ==> Aliases[r] == r)
  {
    var r := NormalizeMood(Some(s)).value;
    var k := Key(s);
    KeyFacts(s);
    if k in Aliases {
      assert r == Aliases[k];
      AliasValuesAreBackendMoods();
      BackendMoodsAreCanonical(r);
      BackendMoodsAreFixedPoints();
      LowerIsLower(r);
    } else {
      assert r == k;
    }
  }

  /** Normalisation is idempotent: an already normalised mood, canonical or
      passed through, normalises to itself. */
  lemma NormalizeIdempotent(s: string)
    requires !IsBlank(s)
    ensures NormalizeMood(NormalizeMood(Some(s))) == NormalizeMood(Some(s))
  {
    NormalizedIsKeyShaped(s);
    NormalizeKeyShaped(NormalizeMood(Some(s)).value);
  }

  /** Case and surrounding whitespace do not matter. */
  lemma {:induction false} NormalizeIgnoresCaseAndPadding(s: string, pre: string, post: string)
    requires forall i :: 0 <= i < |pre| ==> IsJavaSpace(pre[i])
    requires forall i :: 0 <= i < |post| ==> IsJavaSpace(post[i])
    ensures NormalizeMood(Some(pre + s + post)) == NormalizeMood(Some(Lower(s)))
  {
    var t := pre + s + post;
    JavaSpaceLower();
    LowerAppend(pre + s, post);
    LowerAppend(pre, s);
    LowerChars(pre);
    LowerChars(post);
    PaddedTrim(Lower(s), Lower(pre), Lower(post));
    PaddedTrim(s, pre, post);
    LowerIsLower(s);
    assert Lower(t) == Lower(pre) + Lower(s) + Lower(post);
    assert Key(t) == JavaTrim(Lower(s));
    assert Key(Lower(s)) == JavaTrim(Lower(s));
    LowerTrimCommute(s, IsJavaSpace);
    assert IsBlank(t) <==> IsBlank(Lower(s)) by {
      LowerTrimCommute(t, IsJavaSpace);
      assert |JavaTrim(t)| == |JavaTrim(s)|;
      assert |JavaTrim(Lower(s))| == |JavaTrim(s)|;
    }
  }

  lemma PaddedTrim(s: string, pre: string, post: string)
    requires forall i :: 0 <= i < |pre| ==> IsJavaSpace(pre[i])
    requires forall i :: 0 <= i < |post| ==> IsJavaSpace(post[i])
    ensures JavaTrim(pre + s + post) == JavaTrim(s)
  {
    PaddedTrimStart(s + post, pre);
    assert pre + s + post == pre + (s + post);
    PaddedTrimEnd(TrimStart(s, IsJavaSpace), post);
    TrimStartAppend(s, post);
  }

  lemma {:induction false} PaddedTrimStart(s: string, pre: string)
    requires forall i :: 0 <= i < |pre| ==> IsJavaSpace(pre[i])
    ensures TrimStart(pre + s, IsJavaSpace) == TrimStart(s, IsJavaSpace)
    decreases |pre|
  {
    if pre != [] {
      assert (pre + s)[1..] == pre[1..] + s;
      PaddedTrimStart(s, pre[1..]);
    } else {
      assert pre + s == s;
    }
  }

  lemma {:induction false} PaddedTrimEnd(s: string, post: string)
    requires forall i :: 0 <= i < |post| ==> IsJavaSpace(post[i])
    ensures TrimEnd(s + post, IsJavaSpace) == TrimEnd(s, IsJavaSpace)
    decreases |post|
  {
    if post != [] {
      var p := post[..|post| - 1];
      assert (s + post)[..|s + post| - 1] == s + p;
      PaddedTrimEnd(s, p);
    } else {
      assert s + post == s;
    }
  }

  /** Trimming the front of `s + post` only reaches into `post` when all of
      `s` is space. */
  lemma {:induction false} TrimStartAppend(s: string, post: string)
    requires forall i :: 0 <= i < |post| ==> IsJavaSpace(post[i])
    ensures TrimEnd(TrimStart(s + post, IsJavaSpace), IsJavaSpace) == TrimEnd(TrimStart(s, IsJavaSpace) + post, IsJavaSpace)
    decreases |s|
  {
    if s == [] {
      assert s + post == post;
      AllSpaceTrims(post);
      assert TrimStart(s, IsJavaSpace) + post == post;
    } else if IsJavaSpace(s[0]) {
      assert (s + post)[1..] == s[1..] + post;
      TrimStartAppend(s[1..], post);
    } else {
      assert (s + post)[0] == s[0];
    }
  }

  lemma AllSpaceTrims(post: string)
    requires forall i :: 0 <= i < |post| ==> IsJavaSpace(post[i])
    ensures TrimStart(post, IsJavaSpace) == []
    ensures TrimEnd(post, IsJavaSpace) == []
  {
  }

  // ---------------------------------------------------------------------
  // Lists

  /** Some entry of `xs` normalises to `m`. */
  predicate Produces(xs: seq<string>, m: string) {
    xs != [] && (NormalizeMood(Some(xs[0])) == Some(m) || Produces(xs[1..], m))
  }

  lemma {:induction false} ProducesAt(xs: seq<string>, i: nat)
    requires i < |xs| && NormalizeMood(Some(xs[i])).Some?
    ensures Produces(xs, NormalizeMood(Some(xs[i])).value)
    decreases i
  {
    if i > 0 {
      assert xs[1..][i - 1] == xs[i];
      ProducesAt(xs[1..], i - 1);
    }
  }

  /** The loop of `normalizeMoods` over a non-null list: entries that
      normalise to null or to "" are dropped, the rest kept in order. */
  function NormalizeList(xs: seq<string>): (r: seq<string>)
    ensures |r| <= |xs|
    ensures forall i :: 0 <= i < |r| ==> r[i] != []
    ensures forall m :: m in r <==> Produces(xs, m)
  {
    if xs == [] then []
    else
      var n := NormalizeMood(Some(xs[0]));
      var rest := NormalizeList(xs[1..]);
      if n.Some? && n.value != [] then [n.value] + rest else rest
  }

  /** `normalizeMoods`: null gives the empty list. */
  function NormalizeMoods(xs: Option<seq<string>>): (r: seq<string>)
    ensures xs.None? ==> r == []
    ensures xs.Some? ==> |r| <= |xs.value|
  {
    match xs
    case None => []
    case Some(l) => NormalizeList(l)
  }

  /** Normalising a concatenation normalises each part: the order of the
      input is kept. */
  lemma {:induction false} NormalizeListAppend(a: seq<string>, b: seq<string>)
    ensures NormalizeList(a + b) == NormalizeList(a) + NormalizeList(b)
    decreases |a|
  {
    if a == [] {
      assert a + b == b;
    } else {
      assert (a + b)[0] == a[0];
      assert (a + b)[1..] == a[1..] + b;
      NormalizeListAppend(a[1..], b);
    }
  }

  /** With no blank entry nothing is dropped: the result is the element-wise
      normalisation. */
  lemma {:induction false} NormalizeListNoBlanks(xs: seq<string>)
    requires forall i :: 0 <= i < |xs| ==> !IsBlank(xs[i])
    ensures |NormalizeList(xs)| == |xs|
    ensures forall i :: 0 <= i < |xs| ==> Some(NormalizeList(xs)[i]) == NormalizeMood(Some(xs[i]))
    decreases |xs|
  {
    if xs != [] {
      NormalizeListNoBlanks(xs[1..]);
      var rest := NormalizeList(xs[1..]);
      assert NormalizeList(xs) == [NormalizeMood(Some(xs[0])).value] + rest;
      forall i | 1 <= i < |xs|
        ensures Some(NormalizeList(xs)[i]) == NormalizeMood(Some(xs[i]))
      {
        assert xs[i] == xs[1..][i - 1];
      }
    }
  }

  /** True when some element of `a` occurs in `b` (the loop with `contains`). */
  function AnyIn(a: seq<string>, b: seq<string>): (r: bool)
    ensures r <==> exists i :: 0 <= i < |a| && a[i] in b
  {
    if a == [] then false
    else if a[0] in b then true
    else
      assert forall i :: 1 <= i < |a| ==> a[i] == a[1..][i - 1];
      AnyIn(a[1..], b)
  }

  /** `hasMatchingMood`: false when either list is null or empty, otherwise
      whether the normalised lists share an element. */
  function HasMatchingMood(user: Option<seq<string>>, other: Option<seq<string>>): (r: bool)
    ensures r <==> user.Some? && other.Some? && user.value != [] && other.value != []
                   && exists m :: m in NormalizeList(user.value) && m in NormalizeList(other.value)
  {
    if user.None? || user.value == [] || other.None? || other.value == [] then false
    else AnyIn(NormalizeMoods(user), NormalizeMoods(other))
  }

  /** Matching is symmetric. */
  lemma HasMatchingMoodSymmetric(a: Option<seq<string>>, b: Option<seq<string>>)
    ensures HasMatchingMood(a, b) == HasMatchingMood(b, a)
  {
  }

  /** `getMatchingMoods`: the normalised user moods present among the
      normalised other moods, in user order, duplicates kept. */
  function GetMatchingMoods(user: Option<seq<string>>, other: Option<seq<string>>): (r: seq<string>)
    ensures user.None? || other.None? ==> r == []
    ensures user.Some? && other.Some? ==>
      && IsSubsequence(r, NormalizeList(user.value))
      && (forall i :: 0 <= i < |r| ==> r[i] in NormalizeList(other.value))
      && (forall m :: multiset(r)[m] ==
            if m in NormalizeList(other.value) then multiset(NormalizeList(user.value))[m] else 0)
  {
    if user.None? || other.None? then []
    else
      var theirs := NormalizeMoods(other);
      Filter(NormalizeMoods(user), m => m in theirs)
  }

  /** For non-null lists, some mood matches exactly when `hasMatchingMood`
      says so. */
  lemma MatchingIffHasMatching(user: seq<string>, other: seq<string>)
    ensures GetMatchingMoods(Some(user), Some(other)) != [] <==> HasMatchingMood(Some(user), Some(other))
  {
    var r := GetMatchingMoods(Some(user), Some(other));
    var nu := NormalizeList(user);
    var no := NormalizeList(other);
    if r != [] {
      assert r[0] in nu by {
        assert multiset(r)[r[0]] > 0;
      }
      assert user != [] && other != [];
    }
    if HasMatchingMood(Some(user), Some(other)) {
      var m :| m in nu && m in no;
      assert multiset(r)[m] == multiset(nu)[m] > 0;
    }
  }

  /** Each UI-friendly label normalises to the backend mood at its position. */
  lemma UiFriendlyNormalizesToBackend()
    ensures |UiFriendlyMoods| == |BackendMoods|
    ensures forall i :: 0 <= i < |UiFriendlyMoods| ==> NormalizeMood(Some(UiFriendlyMoods[i])) == Some(BackendMoods[i])
  {
    forall i | 0 <= i < |UiFriendlyMoods|
      ensures NormalizeMood(Some(UiFriendlyMoods[i])) == Some(BackendMoods[i])
    {
      UiLabelsResolve(i);
      LabelNormalizes(UiFriendlyMoods[i], BackendMoods[i]);
    }
  }

  /** A label that lower-cases to an unpadded alias normalises to its mood. */
  lemma LabelNormalizes(ui: string, mood: string)
    requires LabelFor(ui, mood)
    ensures NormalizeMood(Some(ui)) == Some(mood)
  {
    var k := Lower(ui);
    TrimByFixed(k, IsJavaSpace);
    JavaSpaceLower();
    LowerTrimCommute(ui, IsJavaSpace);
    assert Key(ui) == k;
  }
}
