/** The `SubscriptionForm` component's state changes: toggling a mood in the
    selection and reacting to the answer of the subscribe request. The HTTP
    client, the confetti timer and rendering are left out. */
module SubscriptionForm {
  import opened Wrappers
  import opened Seqs
  import SubscriberController
  import SubscriberService

  datatype Form = Form(email: string, name: string, preferredMoods: seq<string>)

  const EmptyForm := Form("", "", [])

  // ---------------------------------------------------------------------
  // handleMoodToggle

  /** A selected mood is removed everywhere it occurs; any other mood is
      appended. */
  function Toggle(moods: seq<string>, mood: string): (r: seq<string>)
    ensures mood !in moods ==> |r| == |moods| + 1 && r[..|moods|] == moods && r[|moods|] == mood
    ensures mood in moods ==>
      && IsSubsequence(r, moods) && mood !in r
      && forall m :: m != mood ==> multiset(r)[m] == multiset(moods)[m]
  {
    if mood in moods then
      var r := Filter(moods, (m: string) => m != mood);
      assert mood !in r by {
        FilterMembers(moods, (m: string) => m != mood);
      }
      r
    else
      var r := moods + [mood];
      assert r[..|moods|] == moods;
      r
  }

  /** After a toggle a mood is selected exactly when it was not selected
      before and is the one toggled, or was selected and is another one. */
  lemma ToggleFlipsOne(moods: seq<string>, mood: string, m: string)
    ensures m in Toggle(moods, mood) <==> (if m == mood then mood !in moods else m in moods)
  {
    var r := Toggle(moods, mood);
    if mood in moods {
      FilterMembers(moods, (x: string) => x != mood);
    } else {
      assert r == moods + [mood];
    }
  }

  /** Selecting a mood and deselecting it again restores the selection. */
  lemma {:induction false} ToggleTwiceRestores(moods: seq<string>, mood: string)
    requires mood !in moods
    ensures Toggle(Toggle(moods, mood), mood) == moods
  {
    var p := (m: string) => m != mood;
    FilterAppend(moods, [mood], p);
    FilterAll(moods, p);
    assert Filter([mood], p) == [];
  }

  /** Deselecting and reselecting a mood moves it to the end. */
  lemma ReselectMovesToEnd(moods: seq<string>, mood: string)
    requires mood in moods
    ensures Toggle(Toggle(moods, mood), mood) == Filter(moods, (m: string) => m != mood) + [mood]
  {
    assert mood !in Toggle(moods, mood);
  }

  /** The selection never holds a mood twice. */
  lemma ToggleKeepsDistinct(moods: seq<string>, mood: string)
    requires Distinct(moods)
    ensures Distinct(Toggle(moods, mood))
  {
    if mood in moods {
      FilterDistinct(moods, (m: string) => m != mood);
    }
  }

  // ---------------------------------------------------------------------
  // handleSubscribe

  /** The request's fate: the client threw, or it returned a status and a
      body whose `success` is truthy or not and whose `message` may be absent. */
  datatype PostOutcome = Threw | Answered(status: int, success: bool, message: Option<string>)

  datatype Kind = Success | Failure

  /** The form after the answer, the message shown, and whether the confetti
      starts. */
  datatype Submitted = Submitted(form: Form, text: string, kind: Kind, confetti: bool)

  const SuccessText := "\U{1F389} Yay! You're now subscribed to movie magic!"
  const FailureText := "Failed to subscribe. Please try again."
  const ThrownText := "\U{1F61E} Oops! Something went wrong. Please try again."

  /** `x || default` on an optional string: absent and "" are falsy. */
  function MessageOr(message: Option<string>, default: string): (r: string)
    ensures message.Some? && message.value != "" ==> r == message.value
    ensures message.None? || message.value == "" ==> r == default
  {
    if message.Some? && message.value != "" then message.value else default
  }

  function Subscribe(form: Form, outcome: PostOutcome): (r: Submitted)
    ensures r.kind == Success <==> outcome.Answered? && outcome.status == 200 && outcome.success
    ensures r.confetti <==> r.kind == Success
    ensures r.kind == Success ==> r.form == EmptyForm && r.text == MessageOr(outcome.message, SuccessText)
    ensures r.kind == Failure ==> r.form == form
    ensures r.kind == Failure && outcome.Answered? ==> r.text == MessageOr(outcome.message, FailureText)
    ensures outcome.Threw? ==> r.text == ThrownText
  {
    match outcome
    case Threw => Submitted(form, ThrownText, Failure, false)
    case Answered(status, success, message) =>
      if status == 200 && success then Submitted(EmptyForm, MessageOr(message, SuccessText), Success, true)
      else Submitted(form, MessageOr(message, FailureText), Failure, false)
  }

  /** The body the subscriber endpoint sends, as the form reads it. */
  function FromController(r: SubscriberController.AddResponse): PostOutcome {
    Answered(r.status, r.success, r.message)
  }

  /** A subscription the endpoint accepts clears the form and shows the
      endpoint's own message. */
  lemma AcceptedClearsForm(form: Form, req: SubscriberController.AddRequest)
    requires !SubscriberController.Missing(req.name) && !SubscriberController.Missing(req.email)
    ensures var answer := SubscriberController.AddSubscriber(req, SubscriberService.Returned(true));
      Subscribe(form, FromController(answer)) ==
        Submitted(EmptyForm, SubscriberController.SubscribedMessage, Success, true)
  {
  }
}
