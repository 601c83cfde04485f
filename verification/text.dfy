/** String helpers shared by the Java and Python parts of the model.
    Characters are Unicode code points; case mapping is modelled over ASCII. */
module Text {

  /** ASCII lower-casing of one character (Java `toLowerCase`, Python `lower`). */
  function LowerChar(c: char): (r: char)
    ensures 'A' <= c <= 'Z' ==> r != c && 'a' <= r <= 'z'
    ensures !('A' <= c <= 'Z') ==> r == c
  {
    if 'A' <= c <= 'Z' then (c as int + 32) as char else c
  }

  function Lower(s: string): (r: string)
    ensures |r| == |s|
  {
    seq(|s|, i requires 0 <= i < |s| => LowerChar(s[i]))
  }

  lemma LowerChars(s: string)
    ensures forall i :: 0 <= i < |s| ==> Lower(s)[i] == LowerChar(s[i])
  {
  }

  /** Lower-casing agrees with `t` character by character. */
  lemma LowerMatches(s: string, t: string)
    requires |s| == |t| && forall i :: 0 <= i < |s| ==> LowerChar(s[i]) == t[i]
    ensures Lower(s) == t
  {
  }

  predicate IsLower(s: string) {
    forall i :: 0 <= i < |s| ==> !('A' <= s[i] <= 'Z')
  }

  lemma LowerIsLower(s: string)
    ensures IsLower(Lower(s))
    ensures Lower(Lower(s)) == Lower(s)
  {
    LowerChars(s);
    LowerOfLowerIsIdentity(Lower(s));
  }

  lemma LowerOfLowerIsIdentity(s: string)
    requires IsLower(s)
    ensures Lower(s) == s
  {
    LowerChars(s);
  }

  lemma LowerSlice(s: string, i: int, j: int)
    requires 0 <= i <= j <= |s|
    ensures Lower(s[i..j]) == Lower(s)[i..j]
  {
    LowerChars(s);
    LowerChars(s[i..j]);
  }

  lemma LowerAppend(a: string, b: string)
    ensures Lower(a + b) == Lower(a) + Lower(b)
  {
    LowerChars(a);
    LowerChars(b);
    LowerChars(a + b);
  }

  /** Java `String.equalsIgnoreCase` over ASCII. */
  predicate EqualsIgnoreCase(a: string, b: string) {
    Lower(a) == Lower(b)
  }

  // ---------------------------------------------------------------------
  // Trimming

  /** Java `String.trim` removes every leading and trailing char <= U+0020. */
  predicate IsJavaSpace(c: char) {
    c <= ' '
  }

  /** Python `str.isspace` for one character. */
  predicate IsPyWhitespace(c: char) {
    || c == ' ' || c == '\t' || c == '\n' || c == '\r'
    || c == '\U{B}' || c == '\U{C}'
    || ('\U{1C}' <= c <= '\U{1F}')
    || c == '\U{85}' || c == '\U{A0}' || c == '\U{1680}'
    || ('\U{2000}' <= c <= '\U{200A}')
    || c == '\U{2028}' || c == '\U{2029}' || c == '\U{202F}' || c == '\U{205F}' || c == '\U{3000}'
  }

  /* The trimming functions promise only a length bound: their shape is
     stated by the lemmas below, so that unfolding them on a literal stays
     cheap for the solver. */

  function TrimStart(s: string, isSpace: char -> bool): (r: string)
    ensures |r| <= |s|
  {
    if s != [] && isSpace(s[0]) then TrimStart(s[1..], isSpace) else s
  }

  function TrimEnd(s: string, isSpace: char -> bool): (r: string)
    ensures |r| <= |s|
  {
    if s != [] && isSpace(s[|s| - 1]) then TrimEnd(s[..|s| - 1], isSpace) else s
  }

  /** Removes the leading and trailing characters that satisfy `isSpace`. */
  function TrimBy(s: string, isSpace: char -> bool): (r: string)
    ensures |r| <= |s|
  {
    TrimEnd(TrimStart(s, isSpace), isSpace)
  }

  /** TrimStart keeps a suffix that does not start with a space, and every
      character it removes is a space. */
  lemma TrimStartSpaces(s: string, isSpace: char -> bool)
    ensures var r := TrimStart(s, isSpace);
      && r == s[|s| - |r|..]
      && (r == [] || !isSpace(r[0]))
      && forall i :: 0 <= i < |s| - |r| ==> isSpace(s[i])
  {
    if s != [] && isSpace(s[0]) {
      TrimStartSpaces(s[1..], isSpace);
      assert forall i :: 1 <= i < |s| ==> s[i] == s[1..][i - 1];
    }
  }

  /** TrimEnd keeps a prefix that does not end with a space, and every
      character it removes is a space. */
  lemma TrimEndSpaces(s: string, isSpace: char -> bool)
    ensures var r := TrimEnd(s, isSpace);
      && r == s[..|r|]
      && (r == [] || !isSpace(r[|r| - 1]))
      && forall i :: |r| <= i < |s| ==> isSpace(s[i])
  {
    if s != [] && isSpace(s[|s| - 1]) {
      TrimEndSpaces(s[..|s| - 1], isSpace);
    }
  }

  /** Neither end of a trimmed string is a space. */
  lemma TrimByEnds(s: string, isSpace: char -> bool)
    ensures var r := TrimBy(s, isSpace);
      r == [] || (!isSpace(r[0]) && !isSpace(r[|r| - 1]))
  {
    var a := TrimStart(s, isSpace);
    TrimStartSpaces(s, isSpace);
    TrimEndSpaces(a, isSpace);
  }

  /** Trimming leaves nothing exactly when every character is a space. */
  lemma TrimByEmptyIff(s: string, isSpace: char -> bool)
    ensures TrimBy(s, isSpace) == [] <==> forall i :: 0 <= i < |s| ==> isSpace(s[i])
  {
    var a := TrimStart(s, isSpace);
    TrimStartSpaces(s, isSpace);
    TrimEndSpaces(a, isSpace);
    if TrimBy(s, isSpace) == [] {
      assert a == [];
    }
  }

  function JavaTrim(s: string): string {
    TrimBy(s, IsJavaSpace)
  }

  function PyStrip(s: string): string {
    TrimBy(s, IsPyWhitespace)
  }

  /** Java `s.trim().isEmpty()`. */
  predicate IsBlank(s: string) {
    JavaTrim(s) == []
  }

  /** A string that neither end of TrimBy would shorten is left unchanged. */
  lemma TrimByFixed(s: string, isSpace: char -> bool)
    requires s == [] || (!isSpace(s[0]) && !isSpace(s[|s| - 1]))
    ensures TrimBy(s, isSpace) == s
  {
    assert TrimStart(s, isSpace) == s;
  }

  /** Trimming commutes with ASCII lower-casing for both space predicates,
      because lower-casing never turns a space into a non-space or back. */
  lemma LowerTrimCommute(s: string, isSpace: char -> bool)
    requires forall c :: isSpace(c) <==> isSpace(LowerChar(c))
    ensures Lower(TrimBy(s, isSpace)) == TrimBy(Lower(s), isSpace)
  {
    var a := TrimStart(s, isSpace);
    var b := TrimStart(Lower(s), isSpace);
    TrimStartLower(s, isSpace);
    TrimEndLower(a, isSpace);
  }

  lemma TrimStartLower(s: string, isSpace: char -> bool)
    requires forall c :: isSpace(c) <==> isSpace(LowerChar(c))
    ensures Lower(TrimStart(s, isSpace)) == TrimStart(Lower(s), isSpace)
  {
    LowerChars(s);
    if s != [] && isSpace(s[0]) {
      assert Lower(s)[1..] == Lower(s[1..]);
      TrimStartLower(s[1..], isSpace);
    }
  }

  lemma TrimEndLower(s: string, isSpace: char -> bool)
    requires forall c :: isSpace(c) <==> isSpace(LowerChar(c))
    ensures Lower(TrimEnd(s, isSpace)) == TrimEnd(Lower(s), isSpace)
  {
    LowerChars(s);
    if s != [] && isSpace(s[|s| - 1]) {
      LowerSlice(s, 0, |s| - 1);
      TrimEndLower(s[..|s| - 1], isSpace);
    }
  }

  lemma JavaSpaceLower()
    ensures forall c :: IsJavaSpace(c) <==> IsJavaSpace(LowerChar(c))
  {
  }

  lemma PySpaceLower()
    ensures forall c :: IsPyWhitespace(c) <==> IsPyWhitespace(LowerChar(c))
  {
  }

  /** Two space predicates that agree on every character of `s` trim it alike. */
  lemma TrimByAgree(s: string, p: char -> bool, q: char -> bool)
    requires forall i :: 0 <= i < |s| ==> (p(s[i]) <==> q(s[i]))
    ensures TrimBy(s, p) == TrimBy(s, q)
  {
    TrimStartAgree(s, p, q);
    var t := TrimStart(s, p);
    TrimStartSpaces(s, p);
    assert forall i :: 0 <= i < |t| ==> t[i] == s[|s| - |t| + i];
    TrimEndAgree(t, p, q);
  }

  lemma TrimStartAgree(s: string, p: char -> bool, q: char -> bool)
    requires forall i :: 0 <= i < |s| ==> (p(s[i]) <==> q(s[i]))
    ensures TrimStart(s, p) == TrimStart(s, q)
  {
    if s != [] && p(s[0]) {
      TrimStartAgree(s[1..], p, q);
    }
  }

  lemma TrimEndAgree(s: string, p: char -> bool, q: char -> bool)
    requires forall i :: 0 <= i < |s| ==> (p(s[i]) <==> q(s[i]))
    ensures TrimEnd(s, p) == TrimEnd(s, q)
  {
    if s != [] && p(s[|s| - 1]) {
      TrimEndAgree(s[..|s| - 1], p, q);
    }
  }

  // ---------------------------------------------------------------------
  // Joining and splitting

  /** Java `String.join(sep, xs)` / Python `sep.join(xs)`. */
  function Join(sep: string, xs: seq<string>): (r: string)
    ensures |xs| == 1 ==> r == xs[0]
    ensures xs == [] ==> r == []
  {
    if xs == [] then []
    else if |xs| == 1 then xs[0]
    else xs[0] + sep + Join(sep, xs[1..])
  }

  lemma JoinAppend(sep: string, xs: seq<string>, x: string)
    requires xs != []
    ensures Join(sep, xs + [x]) == Join(sep, xs) + sep + x
  {
    if |xs| == 1 {
      assert (xs + [x])[1..] == [x];
    } else {
      assert (xs + [x])[1..] == xs[1..] + [x];
      JoinAppend(sep, xs[1..], x);
    }
  }

  /** `x` occurs in `s` starting at position `k`. */
  predicate OccursAt(x: string, s: string, k: int) {
    0 <= k <= |s| - |x| && s[k..k + |x|] == x
  }

  /** `x` occurs in `s` at some position. */
  ghost predicate IsInfix(x: string, s: string) {
    exists k :: OccursAt(x, s, k)
  }

  /** Text put in front of `s` keeps every occurrence in it. */
  lemma InfixAfter(x: string, a: string, s: string)
    requires IsInfix(x, s)
    ensures IsInfix(x, a + s)
  {
    var k :| OccursAt(x, s, k);
    assert (a + s)[|a| + k..|a| + k + |x|] == x;
    assert OccursAt(x, a + s, |a| + k);
  }

  /** Every item occurs in the joined text; the first item starts it and the
      last one ends it. */
  lemma {:induction false} JoinItems(sep: string, xs: seq<string>)
    ensures forall i :: 0 <= i < |xs| ==> IsInfix(xs[i], Join(sep, xs))
    ensures xs != [] ==> |Join(sep, xs)| >= |xs[0]| && Join(sep, xs)[..|xs[0]|] == xs[0]
    ensures xs != [] ==>
      var j := Join(sep, xs); var last := xs[|xs| - 1];
      |j| >= |last| && j[|j| - |last|..] == last
    decreases |xs|
  {
    if |xs| == 1 {
      assert OccursAt(xs[0], Join(sep, xs), 0);
    } else if |xs| > 1 {
      var rest := Join(sep, xs[1..]);
      var j := Join(sep, xs);
      assert j == xs[0] + (sep + rest);
      JoinItems(sep, xs[1..]);
      assert j[0..|xs[0]|] == xs[0];
      assert OccursAt(xs[0], j, 0);
      forall i | 1 <= i < |xs|
        ensures IsInfix(xs[i], j)
      {
        assert xs[1..][i - 1] == xs[i];
        InfixAfter(xs[i], sep, rest);
        InfixAfter(xs[i], xs[0], sep + rest);
      }
      assert xs[1..][|xs[1..]| - 1] == xs[|xs| - 1];
    }
  }

  /** Java regex `\s`: space, tab, newline, vertical tab, form feed, return. */
  predicate IsRegexSpace(c: char) {
    c == ' ' || c == '\t' || c == '\n' || c == '\U{B}' || c == '\U{C}' || c == '\r'
  }

  function SkipRegexSpace(s: string): (r: string)
    ensures |r| <= |s|
  {
    TrimStart(s, IsRegexSpace)
  }

  function IndexOf(s: string, c: char): (i: nat)
    requires c in s
    ensures i < |s| && s[i] == c && c !in s[..i]
  {
    if s[0] == c then 0 else 1 + IndexOf(s[1..], c)
  }

  /** The pieces between the matches of the regex `,\s*`, trailing empty
      pieces included. */
  function CommaPieces(s: string): (r: seq<string>)
    ensures |r| >= 1
    ensures forall k :: 0 <= k < |r| ==> ',' !in r[k]
    decreases |s|
  {
    if ',' !in s then [s]
    else
      var i := IndexOf(s, ',');
      [s[..i]] + CommaPieces(SkipRegexSpace(s[i + 1..]))
  }

  function DropTrailingEmpty(xs: seq<string>): (r: seq<string>)
    ensures |r| <= |xs| && r == xs[..|r|]
    ensures r == [] || r[|r| - 1] != []
    ensures forall k :: |r| <= k < |xs| ==> xs[k] == []
  {
    if xs != [] && xs[|xs| - 1] == [] then DropTrailingEmpty(xs[..|xs| - 1]) else xs
  }

  /** Java `s.split(",\\s*")`: with no match the whole string is the only
      piece; otherwise trailing empty pieces are removed. */
  function SplitCommaSpace(s: string): (r: seq<string>)
    ensures ',' !in s ==> r == [s]
    ensures forall k :: 0 <= k < |r| ==> ',' !in r[k]
  {
    if ',' !in s then [s] else DropTrailingEmpty(CommaPieces(s))
  }

  /** Items that `Join(", ", _)` can write and `SplitCommaSpace` reads back. */
  predicate SplittableItems(xs: seq<string>) {
    && xs != []
    && (forall k :: 0 <= k < |xs| ==> ',' !in xs[k])
    && (forall k :: 1 <= k < |xs| ==> xs[k] == [] || !IsRegexSpace(xs[k][0]))
    && (|xs| == 1 || xs[|xs| - 1] != [])
  }

  lemma {:induction false} CommaPiecesOfJoin(xs: seq<string>)
    requires xs != []
    requires forall k :: 0 <= k < |xs| ==> ',' !in xs[k]
    requires forall k :: 1 <= k < |xs| ==> xs[k] == [] || !IsRegexSpace(xs[k][0])
    ensures CommaPieces(Join(", ", xs)) == xs
    decreases |xs|
  {
    if |xs| == 1 {
    } else {
      var s := Join(", ", xs);
      var rest := Join(", ", xs[1..]);
      assert s == xs[0] + ", " + rest;
      assert s[..|xs[0]|] == xs[0];
      assert s[|xs[0]|] == ',';
      assert ',' in s;
      var i := IndexOf(s, ',');
      assert i == |xs[0]|;
      assert s[i + 1..] == " " + rest;
      SkipOneSpace(rest);
      CommaPiecesOfJoin(xs[1..]);
      assert [xs[0]] + xs[1..] == xs;
    }
  }

  lemma SkipOneSpace(rest: string)
    requires rest == [] || !IsRegexSpace(rest[0])
    ensures SkipRegexSpace(" " + rest) == rest
  {
    assert (" " + rest)[1..] == rest;
    assert TrimStart(rest, IsRegexSpace) == rest;
  }

  /** Reading back what the subscriber store wrote: splitting the ", "-joined
      moods on `,\s*` recovers the list. */
  lemma {:induction false} SplitJoinRoundTrip(xs: seq<string>)
    requires SplittableItems(xs)
    ensures SplitCommaSpace(Join(", ", xs)) == xs
  {
    var s := Join(", ", xs);
    if |xs| == 1 {
    } else {
      assert s == xs[0] + ", " + Join(", ", xs[1..]);
      assert s[|xs[0]|] == ',';
      CommaPiecesOfJoin(xs);
    }
  }

  // ---------------------------------------------------------------------
  // Decimal rendering of integers (Java string concatenation, Python str()).

  function DigitChar(d: nat): (c: char)
    requires d < 10
    ensures '0' <= c <= '9'
  {
    ('0' as int + d) as char
  }

  function NatToString(n: nat): (r: string)
    ensures r != []
    ensures forall i :: 0 <= i < |r| ==> '0' <= r[i] <= '9'
  {
    if n < 10 then [DigitChar(n)] else NatToString(n / 10) + [DigitChar(n % 10)]
  }

  function IntToString(n: int): (r: string)
    ensures r != []
    ensures n < 0 <==> r[0] == '-'
  {
    if n < 0 then "-" + NatToString(-n) else NatToString(n)
  }
}
