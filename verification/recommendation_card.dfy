/** The list logic of the `RecommendationCard` component: which entry is
    featured, which are offered as alternatives, and which entry a click on
    an alternative features next. Rendering and scrolling are left out. */
module RecommendationCard {
  import opened Wrappers

  /** What one render shows: nothing, a failure (the featured entry is
      undefined and destructuring it throws), or the featured entry with the
      alternatives. */
  datatype View<T> = Hidden | Crashed | Shown(featured: T, alternatives: seq<T>)

  /** `filter((_, index) => index !== featured)`, walked from the front. */
  function Alternatives<T>(all: seq<T>, featured: int): (r: seq<T>)
    ensures 0 <= featured < |all| ==>
      && |r| == |all| - 1
      && forall k :: 0 <= k < |r| ==> r[k] == all[if k < featured then k else k + 1]
    ensures !(0 <= featured < |all|) ==> r == all
    decreases |all|
  {
    if all == [] then []
    else (if featured == 0 then [] else [all[0]]) + Alternatives(all[1..], featured - 1)
  }

  /** One render: hidden without entries, then the featured entry and the
      others. */
  function Render<T>(recs: Option<seq<T>>, featured: nat): (r: View<T>)
    ensures r.Hidden? <==> recs.None? || recs.value == []
    ensures r.Crashed? <==> recs.Some? && recs.value != [] && featured >= |recs.value|
    ensures r.Shown? ==>
      && r.featured == recs.value[featured]
      && |r.alternatives| == |recs.value| - 1
      && forall x :: x in r.alternatives ==> x in recs.value
  {
    if recs.None? || recs.value == [] then Hidden
    else if featured >= |recs.value| then Crashed
    else
      var alternatives := Alternatives(recs.value, featured);
      assert forall x :: x in alternatives ==> x in recs.value by {
        forall x | x in alternatives
          ensures x in recs.value
        {
          var k :| 0 <= k < |alternatives| && alternatives[k] == x;
          assert x == recs.value[if k < featured then k else k + 1];
        }
      }
      Shown(recs.value[featured], alternatives)
  }

  /** `handleAlternativeClick`: the original index of the `clicked`-th entry
      that is not the featured one, or 0 when there is none. */
  method AlternativeClick(n: nat, featured: nat, clicked: int) returns (index: nat)
    ensures index == Clicked(n, featured, clicked)
  {
    index := 0;
    var count := 0;
    var i := 0;
    while i < n
      invariant 0 <= i <= n
      invariant count == (if featured < i then i - 1 else i)
      invariant count <= clicked || clicked < 0
      invariant index == 0
    {
      if i != featured {
        if count == clicked {
          index := i;
          return;
        }
        count := count + 1;
      }
      i := i + 1;
    }
  }

  /** The featured index a click leads to: the alternatives before the
      featured entry keep their index, the later ones shift up by one. */
  function Clicked(n: nat, featured: nat, clicked: int): nat {
    var m := if featured < n then n - 1 else n;
    if !(0 <= clicked < m) then 0
    else if featured < n && clicked >= featured then clicked + 1
    else clicked
  }

  /** A click on a shown alternative features exactly that entry: the new
      index is in range, differs from the old one, and the render that
      follows shows the clicked alternative. */
  lemma ClickFeaturesAlternative<T>(recs: seq<T>, featured: nat, clicked: int)
    requires featured < |recs| && 0 <= clicked < |recs| - 1
    ensures var next := Clicked(|recs|, featured, clicked);
      && next < |recs| && next != featured
      && Render(Some(recs), next).Shown?
      && Render(Some(recs), next).featured == Render(Some(recs), featured).alternatives[clicked]
  {
  }

  /** A click outside the alternatives features the first entry. */
  lemma OutOfRangeClickFeaturesFirst(n: nat, featured: nat, clicked: int)
    requires featured < n
    requires clicked < 0 || clicked >= n - 1
    ensures Clicked(n, featured, clicked) == 0
  {
  }

  /** The component's state: the recommendation it was given and the
      featured index. */
  datatype Card<T> = Card(recs: Option<seq<T>>, featured: nat)

  /** A new recommendation: the render with the old index happens first,
      then the effect resets the index to 0. */
  function Receive<T>(card: Card<T>, recs: Option<seq<T>>): (View<T>, Card<T>) {
    (Render(recs, card.featured), Card(recs, 0))
  }

  /** After the reset the first entry is featured and the rest, in order,
      are the alternatives; the card never fails then, nor after any click. */
  lemma ReceiveResets<T>(card: Card<T>, recs: Option<seq<T>>, clicked: int)
    ensures var next := Receive(card, recs).1;
      && next.featured == 0
      && !Render(next.recs, next.featured).Crashed?
      && (recs.Some? && recs.value != [] ==> Render(next.recs, next.featured) == Shown(recs.value[0], recs.value[1..]))
      && (recs.Some? ==> !Render(next.recs, Clicked(|recs.value|, next.featured, clicked)).Crashed?)
  {
    if recs.Some? && recs.value != [] {
      assert Alternatives(recs.value, 0) == recs.value[1..];
    }
  }

  /** The render before the reset uses the previous index: a shorter new
      list leaves the featured entry undefined. */
  lemma StaleIndexBeforeReset()
    ensures Receive(Card(Some([10, 20, 30]), 2), Some([40])).0 == Crashed
  {
  }
}
