/** The billing webhook (`stripeWebhookHandler` in api/stripe.go): which
    events lead to a subscription being reconciled, and what the handler
    writes back.
 */
module Webhook {

  import opened Outcomes
  import opened Subscriptions
  import opened Strings

  const SubscriptionEvents: string := "customer.subscription"
  const ScheduleEvents: string := "subscription_schedule"

  datatype EventClass = SubscriptionEvent | ScheduleEvent | OtherEvent

  /** The handler's dispatch: subscription events are recognised first. */
  function Classify(eventType: string): (r: EventClass)
    ensures r == SubscriptionEvent <==> Contains(eventType, SubscriptionEvents)
    ensures r == ScheduleEvent ==> Contains(eventType, ScheduleEvents)
    ensures r == OtherEvent ==> !Contains(eventType, SubscriptionEvents) && !Contains(eventType, ScheduleEvents)
  {
    if Contains(eventType, SubscriptionEvents) then SubscriptionEvent
    else if Contains(eventType, ScheduleEvents) then ScheduleEvent
    else OtherEvent
  }

  /** An event type is a subscription event exactly when it has
      `customer.subscription` somewhere in it, even when it also has
      `subscription_schedule`; a schedule event is one that has only the
      latter. */
  lemma ClassifyByOccurrence(eventType: string)
    ensures Classify(eventType) == SubscriptionEvent <==> exists i :: OccursAt(eventType, SubscriptionEvents, i)
    ensures Classify(eventType) == ScheduleEvent <==>
              (!exists i :: OccursAt(eventType, SubscriptionEvents, i)) && exists i :: OccursAt(eventType, ScheduleEvents, i)
    ensures Classify(eventType) == OtherEvent <==>
              (!exists i :: OccursAt(eventType, SubscriptionEvents, i)) && !exists i :: OccursAt(eventType, ScheduleEvents, i)
  {
    ContainsAt(eventType, SubscriptionEvents);
    ContainsAt(eventType, ScheduleEvents);
  }

  /** What reading the request produced (reading and parsing the body is
      not modelled): an event, or an error with its HTTP status. */
  datatype Read = ReadFailed(code: int, err: Error) | ReadEvent(eventType: string, raw: string)

  /** What the handler writes back. */
  datatype Response = WroteError(code: int, err: Error) | WroteSuccess | NothingWritten

  /** The response, and the reconciliation of the subscription the event
      named, if one was run. */
  datatype Handled = Handled(response: Response, processed: Option<(Subscription, Processed)>)

  /** The handler.  `parseSub` and `parseSchedule` decode the event
      payload, `fetch` asks the billing service for a subscription by id,
      and the store with its two faults is what `processSub` works on. */
  function Handle(read: Read,
                  parseSub: string -> Result<Subscription>, parseSchedule: string -> Result<string>,
                  fetch: string -> Result<Subscription>,
                  store: Store, lookupFault: Option<Error>, saveFault: Option<Error>): (r: Handled)
    ensures read.ReadFailed? ==> r == Handled(WroteError(read.code, read.err), None)
    ensures r.processed.Some? ==> r.response == WroteSuccess
    ensures r.processed.Some? ==> r.processed.value.1 == ProcessSub(store, r.processed.value.0, lookupFault, saveFault)
    ensures r.response == NothingWritten ==> r.processed.None?
  {
    match read
    case ReadFailed(code, e) => Handled(WroteError(code, e), None)
    case ReadEvent(eventType, raw) =>
      match Classify(eventType)
      case SubscriptionEvent =>
        (match parseSub(raw)
         case Err(_) => Handled(NothingWritten, None)
         case Ok(s) => Handled(WroteSuccess, Some((s, ProcessSub(store, s, lookupFault, saveFault)))))
      case ScheduleEvent =>
        (match parseSchedule(raw)
         case Err(_) => Handled(NothingWritten, None)
         case Ok(id) =>
           if id == "" then Handled(NothingWritten, None)
           else match fetch(id)
             case Err(_) => Handled(NothingWritten, None)
             case Ok(s) => Handled(WroteSuccess, Some((s, ProcessSub(store, s, lookupFault, saveFault)))))
      case OtherEvent => Handled(WroteSuccess, None)
  }

  /** A subscription event reconciles the payload's subscription and
      answers success whatever the reconciliation reports; a payload that
      does not parse changes nothing and has nothing written, so net/http
      answers an empty 200 OK. */
  lemma SubscriptionEventHandled(eventType: string, raw: string,
                                 parseSub: string -> Result<Subscription>, parseSchedule: string -> Result<string>,
                                 fetch: string -> Result<Subscription>,
                                 store: Store, lookupFault: Option<Error>, saveFault: Option<Error>)
    requires Contains(eventType, SubscriptionEvents)
    ensures var r := Handle(ReadEvent(eventType, raw), parseSub, parseSchedule, fetch, store, lookupFault, saveFault);
            && (parseSub(raw).Ok? ==> r.response == WroteSuccess && r.processed.Some? && r.processed.value.0 == parseSub(raw).value)
            && (parseSub(raw).Err? ==> r == Handled(NothingWritten, None))
  {
  }

  /** A schedule event reconciles the subscription it refers to, fetched by
      id; an empty id, an unparsable payload or a failed fetch processes
      nothing and has nothing written, so net/http answers an empty 200 OK. */
  lemma ScheduleEventHandled(eventType: string, raw: string,
                             parseSub: string -> Result<Subscription>, parseSchedule: string -> Result<string>,
                             fetch: string -> Result<Subscription>,
                             store: Store, lookupFault: Option<Error>, saveFault: Option<Error>)
    requires !Contains(eventType, SubscriptionEvents) && Contains(eventType, ScheduleEvents)
    ensures var r := Handle(ReadEvent(eventType, raw), parseSub, parseSchedule, fetch, store, lookupFault, saveFault);
            && (parseSchedule(raw).Err? || parseSchedule(raw) == Ok("") ==> r == Handled(NothingWritten, None))
            && (parseSchedule(raw).Ok? && parseSchedule(raw).value != "" ==>
                  (fetch(parseSchedule(raw).value).Err? ==> r == Handled(NothingWritten, None))
                  && (fetch(parseSchedule(raw).value).Ok? ==>
                        r.response == WroteSuccess && r.processed.Some?
                        && r.processed.value.0 == fetch(parseSchedule(raw).value).value))
  {
  }

  /** The response never depends on how the reconciliation went. */
  lemma ResponseIgnoresProcessing(read: Read,
                                  parseSub: string -> Result<Subscription>, parseSchedule: string -> Result<string>,
                                  fetch: string -> Result<Subscription>,
                                  store: Store, lookupFault: Option<Error>, saveFault: Option<Error>,
                                  store2: Store, lookupFault2: Option<Error>, saveFault2: Option<Error>)
    ensures Handle(read, parseSub, parseSchedule, fetch, store, lookupFault, saveFault).response
            == Handle(read, parseSub, parseSchedule, fetch, store2, lookupFault2, saveFault2).response
  {
  }

  /** Every other event is answered with success and processes nothing. */
  lemma OtherEventHandled(eventType: string, raw: string,
                          parseSub: string -> Result<Subscription>, parseSchedule: string -> Result<string>,
                          fetch: string -> Result<Subscription>,
                          store: Store, lookupFault: Option<Error>, saveFault: Option<Error>)
    requires !Contains(eventType, SubscriptionEvents) && !Contains(eventType, ScheduleEvents)
    ensures Handle(ReadEvent(eventType, raw), parseSub, parseSchedule, fetch, store, lookupFault, saveFault)
            == Handled(WroteSuccess, None)
  {
  }
}
