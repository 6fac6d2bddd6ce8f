/**
 * The part of the `/trigger-emails` handler that both servers share: the
 * payload check and the loop that fills a fresh queue with the request's
 * messages.
 */
module Requests {
  import opened Wrappers
  import opened Queues
  import opened Flows

  /**
   * The JSON body after parsing. A field the client left out (or sent as
   * `null`) is `None`.
   */
  datatype Request = Request(eventNameTrigger: Option<string>, userEmail: Option<string>, emails: Option<seq<EmailData>>)

  /** The HTTP answer: status code and text. */
  datatype Response = Response(status: nat, text: string)

  const InvalidPayload := Response(400, "Invalid request payload")
  const Queued := Response(200, "Emails queued successfully")

  /**
   * The parts of a request that passed the check, as plain values; the
   * handlers turn `emails` into a queue and wrap it in a `Flows.FlowData`.
   */
  datatype Flow = Flow(eventNameTrigger: string, userEmail: string, emails: seq<EmailData>)

  /** JavaScript truthiness of a string field: `undefined`, `null` and `""` are falsy. */
  predicate TruthyString(s: Option<string>)
  {
    s.Some? && s.value != ""
  }

  /**
   * `if (!eventNameTrigger || !userEmail || !emails)` rejects; otherwise the
   * three fields make the flow. Any array is truthy, the empty one included.
   */
  function Validate(req: Request): (r: Option<Flow>)
    ensures r.None? <==> (req.eventNameTrigger == None || req.eventNameTrigger == Some("")
                          || req.userEmail == None || req.userEmail == Some("")
                          || req.emails == None)
    ensures r.Some? ==> r.value == Flow(req.eventNameTrigger.value, req.userEmail.value, req.emails.value)
  {
    if !TruthyString(req.eventNameTrigger) || !TruthyString(req.userEmail) || req.emails.None? then None
    else Some(Flow(req.eventNameTrigger.value, req.userEmail.value, req.emails.value))
  }

  /** The answer the handler sends: 400 for a rejected payload, 200 otherwise. */
  function ResponseFor(req: Request): (resp: Response)
    ensures resp.status == 400 <==> Validate(req).None?
    ensures resp.status == 200 <==> Validate(req).Some?
  {
    if Validate(req).None? then InvalidPayload else Queued
  }

  /** A request with a trigger, a recipient and an empty `emails` array is accepted. */
  lemma EmptyEmailsAccepted(trigger: string, userEmail: string)
    requires trigger != "" && userEmail != ""
    ensures Validate(Request(Some(trigger), Some(userEmail), Some([]))) == Some(Flow(trigger, userEmail, []))
    ensures ResponseFor(Request(Some(trigger), Some(userEmail), Some([]))) == Queued
  {
  }

  /** Leaving out any one of the three fields is answered 400 "Invalid request payload". */
  lemma MissingFieldRejected(req: Request)
    requires req.eventNameTrigger == None || req.userEmail == None || req.emails == None
    ensures ResponseFor(req) == InvalidPayload
  {
  }

  /** `new Queue()` and then `enqueue` of every email, in array order. */
  method BuildQueue(emails: seq<EmailData>) returns (queue: Queue<EmailData>)
    ensures fresh(queue) && queue.Valid()
    ensures queue.Contents == emails
  {
    queue := new Queue<EmailData>();
    for i := 0 to |emails|
      invariant queue.Valid()
      invariant queue.Contents == emails[..i]
    {
      queue.Enqueue(emails[i]);
    }
  }
}
