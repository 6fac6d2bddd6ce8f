/**
 * The `/trigger-emails` handler of the standalone server: it validates the
 * payload and builds the flow's queue like the exported app, but starts the
 * dispatch without awaiting it and answers at once. The started dispatch is
 * returned as a pending flow, which `Flows.ProcessEmailQueue` drains.
 */
module Standalone {
  import opened Wrappers
  import opened Queues
  import opened Flows
  import opened Requests

  /**
   * The answer depends on the payload alone (this method is not even given
   * a transport); a valid payload yields a pending flow whose fresh queue
   * holds the request's emails in order, an invalid one yields none.
   */
  method TriggerEmails(req: Request) returns (resp: Response, pending: Option<FlowData>)
    ensures resp == ResponseFor(req)
    ensures pending.None? <==> Validate(req).None?
    ensures pending.Some? ==>
              var flow := Validate(req).value;
              && fresh(pending.value.emails)
              && pending.value.emails.Valid()
              && pending.value.eventNameTrigger == flow.eventNameTrigger
              && pending.value.userEmail == flow.userEmail
              && pending.value.emails.Contents == flow.emails
  {
    var valid := Validate(req);
    if valid.None? {
      return InvalidPayload, None;
    }
    var flow := valid.value;
    var emailQueue := BuildQueue(flow.emails);
    pending := Some(FlowData(flow.eventNameTrigger, flow.userEmail, emailQueue));
    resp := Queued;
  }
}
