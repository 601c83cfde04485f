/** `SubscriberController`: the HTTP status and body chosen from the request's
    validation and the service's outcome. */
module SubscriberController {
  import opened Wrappers
  import opened Text
  import opened IsoDates
  import SubscriberService

  datatype AddRequest = AddRequest(name: Option<string>, email: Option<string>, preferredMoods: seq<string>)

  /** The status and the `success`, `message` and `email` keys of the body
      (an absent key is None). */
  datatype AddResponse = AddResponse(status: int, success: bool, message: Option<string>, email: Option<string>)

  const Ok := 200
  const BadRequest := 400
  const InternalServerError := 500

  const NameRequired := "Name is required"
  const EmailRequired := "Email is required"
  const SubscribedMessage := "\U{1F389} Successfully subscribed! You'll receive emails when new movies are published."
  const FailedMessage := "Failed to subscribe. Please try again."

  /** Null or blank after Java `trim()`. */
  predicate Missing(s: Option<string>) {
    s.None? || IsBlank(s.value)
  }

  /** `addSubscriber`: the name is checked first, then the email; only a
      valid request reaches the service, whose outcome picks the answer. */
  function AddSubscriber(req: AddRequest, service: SubscriberService.AddOutcome): (r: AddResponse)
    ensures Missing(req.name) ==> r == AddResponse(BadRequest, false, Some(NameRequired), None)
    ensures !Missing(req.name) && Missing(req.email) ==> r == AddResponse(BadRequest, false, Some(EmailRequired), None)
    ensures r.status == Ok <==> !Missing(req.name) && !Missing(req.email) && service == SubscriberService.Returned(true)
    ensures r.success <==> r.status == Ok
    ensures r.status == Ok ==> r.email == req.email && r.message == Some(SubscribedMessage)
    ensures !Missing(req.name) && !Missing(req.email) && service == SubscriberService.Returned(false) ==>
      r == AddResponse(InternalServerError, false, Some(FailedMessage), None)
    ensures !Missing(req.name) && !Missing(req.email) && service.Threw? ==>
      r == AddResponse(InternalServerError, false, service.message, None)
  {
    if Missing(req.name) then AddResponse(BadRequest, false, Some(NameRequired), None)
    else if Missing(req.email) then AddResponse(BadRequest, false, Some(EmailRequired), None)
    else match service
      case Returned(true) => AddResponse(Ok, true, Some(SubscribedMessage), req.email)
      case Returned(false) => AddResponse(InternalServerError, false, Some(FailedMessage), None)
      case Threw(m) => AddResponse(InternalServerError, false, m, None)
  }

  /** An invalid request never reaches the service: the answer is the same
      whatever the service would have done. */
  lemma InvalidRequestSkipsService(req: AddRequest, a: SubscriberService.AddOutcome, b: SubscriberService.AddOutcome)
    requires Missing(req.name) || Missing(req.email)
    ensures AddSubscriber(req, a) == AddSubscriber(req, b)
    ensures AddSubscriber(req, a).status == BadRequest
  {
  }

  /** End to end: a known email, in any case, is answered with 500 and the
      service's duplicate message. */
  lemma DuplicateEmailAnswer(req: AddRequest, today: Date, details: seq<SubscriberService.UserBlock>,
                             update: SubscriberService.UpdateOutcome)
    requires ValidDate(today)
    requires !Missing(req.name) && !Missing(req.email)
    requires SubscriberService.IsSubscribed(details, req.email.value)
    ensures var outcome := SubscriberService.AddSubscriber(req.name.value, req.email.value, req.preferredMoods,
                                                           today, SubscriberService.Fetched(Some(details)), update).outcome;
      AddSubscriber(req, outcome) ==
        AddResponse(InternalServerError, false, Some(SubscriberService.DuplicateMessage), None)
  {
  }

  // ---------------------------------------------------------------------
  // filterSubscribersByMoods

  datatype SubscriberInfo = SubscriberInfo(name: string, email: string, preferredMoods: seq<string>)

  datatype FilterResponse = FilterResponse(status: int, success: bool, totalMatching: int, subscribers: seq<SubscriberInfo>)

  function Info(s: SubscriberService.Subscriber): SubscriberInfo {
    SubscriberInfo(s.name, s.email, s.preferredMoods)
  }

  /** `filterSubscribersByMoods` over the service's answer (None when it
      throws): the matches, counted and listed in service order. */
  function FilterSubscribersByMoods(service: Option<seq<SubscriberService.Subscriber>>): (r: FilterResponse)
    ensures service.None? ==> r == FilterResponse(InternalServerError, false, 0, [])
    ensures service.Some? ==>
      && r.status == Ok && r.success
      && r.totalMatching == |service.value| == |r.subscribers|
      && forall i :: 0 <= i < |r.subscribers| ==> r.subscribers[i] == Info(service.value[i])
  {
    match service
    case None => FilterResponse(InternalServerError, false, 0, [])
    case Some(subs) =>
      FilterResponse(Ok, true, |subs|, seq(|subs|, i requires 0 <= i < |subs| => Info(subs[i])))
  }

  /** The service catches its own failures, so the endpoint always answers
      200, listing exactly the matching subscribers. */
  lemma FilterAlwaysSucceeds(tags: Option<seq<string>>, fetch: SubscriberService.FetchOutcome)
    ensures var found := SubscriberService.GetSubscribersByMoods(tags, fetch);
      var r := FilterSubscribersByMoods(Some(found));
      && r.status == Ok
      && r.totalMatching == |found|
      && (forall i :: 0 <= i < |r.subscribers| ==> SubscriberService.Matches(found[i], tags))
      && (!fetch.Fetched? ==> r.totalMatching == 0 && r.subscribers == [])
  {
  }
}
