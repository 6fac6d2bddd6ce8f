/**
 * The `/trigger-emails` handler of the exported app: it validates the
 * payload, builds the flow's queue, awaits the whole dispatch and only then
 * answers.
 */
module EmailService {
  import opened Wrappers
  import opened Queues
  import opened Flows
  import opened Requests

  /**
   * An invalid payload is answered 400 without any transport call. A valid
   * one is dispatched completely (every message once, in order, to the
   * flow's recipient) and then answered 200, whatever the sends returned.
   */
  method TriggerEmails(req: Request, transport: Transport)
    returns (resp: Response, trace: seq<Attempt>, errors: seq<EmailData>, waitedMs: nat)
    ensures resp == ResponseFor(req)
    ensures Validate(req).None? ==> resp == InvalidPayload && trace == [] && errors == [] && waitedMs == 0
    ensures Validate(req).Some? ==>
              var flow := Validate(req).value;
              && resp == Queued
              && trace == DispatchTrace(flow.userEmail, flow.emails, transport, 0)
              && errors == ErrorLog(flow.userEmail, flow.emails, transport, 0)
              && waitedMs == MillisPerSecond * SumDelays(flow.emails)
  {
    var valid := Validate(req);
    if valid.None? {
      return InvalidPayload, [], [], 0;
    }
    var flow := valid.value;
    var emailQueue := BuildQueue(flow.emails);
    var flowData := FlowData(flow.eventNameTrigger, flow.userEmail, emailQueue);
    trace, errors, waitedMs := ProcessEmailQueue(flowData, transport);
    resp := Queued;
  }
}
