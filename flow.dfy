/**
 * The flow dispatch engine: `processEmailQueue` drains a flow's queue one
 * message at a time, waits out the message's delay (seconds, turned into
 * milliseconds) and then hands (userEmail, subject, emailBody) to the
 * transport. A failed send is only logged; the loop goes on.
 *
 * Time is a logical clock: each step records the milliseconds it waited.
 * The transport is an oracle that gives the outcome of the k-th send of
 * the flow, so the model is deterministic once the oracle is fixed.
 */
module Flows {
  import opened Wrappers
  import opened Queues

  /** One message of a flow: subject, body and a delay in whole seconds. */
  datatype EmailData = EmailData(subject: string, emailBody: string, timeDelay: nat)

  /**
   * An accepted flow as the dispatcher receives it: its trigger label, its
   * recipient and the queue of its messages. `Requests.Flow` holds the same
   * fields as plain values, before the queue is built.
   */
  datatype FlowData = FlowData(eventNameTrigger: string, userEmail: string, emails: Queue<EmailData>)

  /** The arguments of one transport call. */
  datatype Send = Send(recipient: string, subject: string, body: string)

  /** One wait-then-send step: how long it waited, what it sent, whether the transport delivered it. */
  datatype Attempt = Attempt(waitMs: nat, send: Send, delivered: bool)

  /** Outcome of the transport for the k-th call of a flow with the given arguments. */
  type Transport = (nat, Send) -> bool

  const MillisPerSecond: nat := 1000

  /** What the transport is asked to send for message `e` of a flow addressed to `userEmail`. */
  function Letter(userEmail: string, e: EmailData): Send
  {
    Send(userEmail, e.subject, e.emailBody)
  }

  /** The letters of a flow, position by position. */
  function Letters(userEmail: string, emails: seq<EmailData>): seq<Send>
  {
    seq(|emails|, i requires 0 <= i < |emails| => Letter(userEmail, emails[i]))
  }

  /**
   * The steps the dispatcher takes on the pending messages `emails` when
   * `calls` transport calls of the flow have already been made: take the
   * front message, wait, send, continue with the rest.
   */
  function DispatchTrace(userEmail: string, emails: seq<EmailData>, transport: Transport, calls: nat): (trace: seq<Attempt>)
    ensures |trace| == |emails|
  {
    if emails == [] then []
    else
      var letter := Letter(userEmail, emails[0]);
      [Attempt(emails[0].timeDelay * MillisPerSecond, letter, transport(calls, letter))]
        + DispatchTrace(userEmail, emails[1..], transport, calls + 1)
  }

  /** The emails that `console.error` reports, in the order the failures happen. */
  function ErrorLog(userEmail: string, emails: seq<EmailData>, transport: Transport, calls: nat): (log: seq<EmailData>)
    ensures |log| <= |emails|
  {
    if emails == [] then []
    else
      var rest := ErrorLog(userEmail, emails[1..], transport, calls + 1);
      if transport(calls, Letter(userEmail, emails[0])) then rest else [emails[0]] + rest
  }

  /** The transport calls of a trace, in order. */
  function Sends(trace: seq<Attempt>): seq<Send>
  {
    seq(|trace|, i requires 0 <= i < |trace| => trace[i].send)
  }

  /** Sum of the delays of a flow, in seconds. */
  function SumDelays(emails: seq<EmailData>): nat
  {
    if emails == [] then 0 else emails[0].timeDelay + SumDelays(emails[1..])
  }

  /** Total logical time a trace spent waiting, in milliseconds. */
  function WaitedMs(trace: seq<Attempt>): nat
  {
    if trace == [] then 0 else trace[0].waitMs + WaitedMs(trace[1..])
  }

  /**
   * The i-th step of the dispatch handles the i-th message, FIFO: it waits
   * that message's own delay times 1000 (whatever happened before), sends
   * that message's subject and body to the flow's recipient, and is the
   * (calls + i)-th transport call.
   */
  lemma {:induction false} DispatchTraceAt(userEmail: string, emails: seq<EmailData>, transport: Transport, calls: nat, i: nat)
    requires i < |emails|
    ensures DispatchTrace(userEmail, emails, transport, calls)[i]
         == Attempt(emails[i].timeDelay * MillisPerSecond, Letter(userEmail, emails[i]), transport(calls + i, Letter(userEmail, emails[i])))
  {
    if i > 0 {
      DispatchTraceAt(userEmail, emails[1..], transport, calls + 1, i - 1);
    }
  }

  /**
   * Exactly one transport call per message, in input order, each to the
   * flow's recipient with that message's subject and body, whatever the
   * transport answers.
   */
  lemma SendsFollowEmails(userEmail: string, emails: seq<EmailData>, transport: Transport, calls: nat)
    ensures Sends(DispatchTrace(userEmail, emails, transport, calls)) == Letters(userEmail, emails)
    ensures |Sends(DispatchTrace(userEmail, emails, transport, calls))| == |emails|
  {
    var trace := DispatchTrace(userEmail, emails, transport, calls);
    forall i | 0 <= i < |emails|
      ensures Sends(trace)[i] == Letters(userEmail, emails)[i]
    {
      DispatchTraceAt(userEmail, emails, transport, calls, i);
    }
  }

  /**
   * Failure isolation: the calls made do not depend on the outcomes of the
   * transport, so a failed send never keeps a later message from being sent.
   */
  lemma OutcomesDoNotAffectSends(userEmail: string, emails: seq<EmailData>, t1: Transport, t2: Transport, calls: nat)
    ensures Sends(DispatchTrace(userEmail, emails, t1, calls)) == Sends(DispatchTrace(userEmail, emails, t2, calls))
  {
    SendsFollowEmails(userEmail, emails, t1, calls);
    SendsFollowEmails(userEmail, emails, t2, calls);
  }

  /** Delay accounting: the flow waits 1000 times the sum of its delays, in milliseconds. */
  lemma {:induction false} TotalWait(userEmail: string, emails: seq<EmailData>, transport: Transport, calls: nat)
    ensures WaitedMs(DispatchTrace(userEmail, emails, transport, calls)) == MillisPerSecond * SumDelays(emails)
  {
    if emails != [] {
      TotalWait(userEmail, emails[1..], transport, calls + 1);
      var trace := DispatchTrace(userEmail, emails, transport, calls);
      assert trace[1..] == DispatchTrace(userEmail, emails[1..], transport, calls + 1);
    }
  }

  /** The transport call made for message i of the flow answered `false`. */
  predicate FailedAt(userEmail: string, emails: seq<EmailData>, transport: Transport, calls: nat, i: int)
  {
    0 <= i < |emails| && !transport(calls + i, Letter(userEmail, emails[i]))
  }

  /** Every message whose send failed is logged. */
  lemma {:induction false} FailedIsLogged(userEmail: string, emails: seq<EmailData>, transport: Transport, calls: nat, i: int)
    requires FailedAt(userEmail, emails, transport, calls, i)
    ensures emails[i] in ErrorLog(userEmail, emails, transport, calls)
  {
    if i > 0 {
      FailedIsLogged(userEmail, emails[1..], transport, calls + 1, i - 1);
    }
  }

  /** Only messages whose send failed are logged. */
  lemma {:induction false} LoggedHasFailed(userEmail: string, emails: seq<EmailData>, transport: Transport, calls: nat, e: EmailData)
    requires e in ErrorLog(userEmail, emails, transport, calls)
    ensures exists i :: FailedAt(userEmail, emails, transport, calls, i) && emails[i] == e
  {
    var rest := emails[1..];
    if e in ErrorLog(userEmail, rest, transport, calls + 1) {
      LoggedHasFailed(userEmail, rest, transport, calls + 1, e);
      var j :| FailedAt(userEmail, rest, transport, calls + 1, j) && rest[j] == e;
      assert FailedAt(userEmail, emails, transport, calls, j + 1) && emails[j + 1] == e;
    } else {
      assert FailedAt(userEmail, emails, transport, calls, 0) && emails[0] == e;
    }
  }

  /**
   * An email is logged as failed exactly when it is one of the flow's
   * messages and the transport call made for it answered `false`.
   */
  lemma ErrorLogMembers(userEmail: string, emails: seq<EmailData>, transport: Transport, calls: nat, e: EmailData)
    ensures e in ErrorLog(userEmail, emails, transport, calls)
        <==> exists i :: FailedAt(userEmail, emails, transport, calls, i) && emails[i] == e
  {
    if e in ErrorLog(userEmail, emails, transport, calls) {
      LoggedHasFailed(userEmail, emails, transport, calls, e);
    }
    if exists i :: FailedAt(userEmail, emails, transport, calls, i) && emails[i] == e {
      var i :| FailedAt(userEmail, emails, transport, calls, i) && emails[i] == e;
      FailedIsLogged(userEmail, emails, transport, calls, i);
    }
  }

  /** When every send is delivered nothing is logged. */
  lemma NoFailuresNoLog(userEmail: string, emails: seq<EmailData>, transport: Transport, calls: nat)
    requires forall i :: 0 <= i < |emails| ==> transport(calls + i, Letter(userEmail, emails[i]))
    ensures ErrorLog(userEmail, emails, transport, calls) == []
  {
    var log := ErrorLog(userEmail, emails, transport, calls);
    if log != [] {
      LoggedHasFailed(userEmail, emails, transport, calls, log[0]);
      assert false;
    }
  }

  /** A flow whose messages all wait `d` seconds waits `d` seconds per message. */
  lemma {:induction false} UniformDelays(emails: seq<EmailData>, d: nat)
    requires forall i :: 0 <= i < |emails| ==> emails[i].timeDelay == d
    ensures SumDelays(emails) == d * |emails|
  {
    if emails != [] {
      UniformDelays(emails[1..], d);
      assert d * |emails| == d + d * |emails[1..]|;
    }
  }

  /**
   * Two messages with no delay: the transport is called twice, first with
   * the first subject and body, then with the second, and no time passes.
   */
  lemma TwoEmailsScenario(userEmail: string, first: EmailData, second: EmailData, transport: Transport)
    requires first.timeDelay == 0 && second.timeDelay == 0
    ensures Sends(DispatchTrace(userEmail, [first, second], transport, 0))
         == [Send(userEmail, first.subject, first.emailBody), Send(userEmail, second.subject, second.emailBody)]
    ensures WaitedMs(DispatchTrace(userEmail, [first, second], transport, 0)) == 0
  {
    SendsFollowEmails(userEmail, [first, second], transport, 0);
    TotalWait(userEmail, [first, second], transport, 0);
    UniformDelays([first, second], 0);
  }

  /** Ten messages of one second each: ten transport calls and ten seconds of waiting. */
  lemma TenEmailsScenario(userEmail: string, emails: seq<EmailData>, transport: Transport)
    requires |emails| == 10
    requires forall i :: 0 <= i < |emails| ==> emails[i].timeDelay == 1
    ensures |Sends(DispatchTrace(userEmail, emails, transport, 0))| == 10
    ensures WaitedMs(DispatchTrace(userEmail, emails, transport, 0)) == 10000
  {
    SendsFollowEmails(userEmail, emails, transport, 0);
    TotalWait(userEmail, emails, transport, 0);
    UniformDelays(emails, 1);
  }

  /**
   * `processEmailQueue`: drain the flow's queue front first; for each
   * message wait `timeDelay * 1000` ms, then call the transport with the
   * flow's recipient and the message's subject and body; a `false` answer
   * is logged and the loop continues until the queue is empty.
   */
  method ProcessEmailQueue(flow: FlowData, transport: Transport)
    returns (trace: seq<Attempt>, errors: seq<EmailData>, waitedMs: nat)
    requires flow.emails.Valid()
    modifies flow.emails
    ensures flow.emails.Valid() && flow.emails.Contents == []
    ensures trace == DispatchTrace(flow.userEmail, old(flow.emails.Contents), transport, 0)
    ensures errors == ErrorLog(flow.userEmail, old(flow.emails.Contents), transport, 0)
    ensures waitedMs == MillisPerSecond * SumDelays(old(flow.emails.Contents))
  {
    var userEmail, emails := flow.userEmail, flow.emails;
    ghost var pending := emails.Contents;
    var calls: nat := 0;
    trace, errors, waitedMs := [], [], 0;
    var empty := emails.IsEmpty();
    while !empty
      invariant emails.Valid()
      invariant calls <= |pending| && emails.Contents == pending[calls..]
      invariant empty <==> emails.Contents == []
      invariant trace + DispatchTrace(userEmail, emails.Contents, transport, calls)
             == DispatchTrace(userEmail, pending, transport, 0)
      invariant errors + ErrorLog(userEmail, emails.Contents, transport, calls)
             == ErrorLog(userEmail, pending, transport, 0)
      invariant waitedMs + MillisPerSecond * SumDelays(emails.Contents) == MillisPerSecond * SumDelays(pending)
      decreases |emails.Contents|
    {
      var emailData := emails.Dequeue();
      if emailData.None? {
        // `if (!emailData) return;`: the queue was non-empty, so this cannot happen
        assert false;
        return;
      }
      var email := emailData.value;
      // wait before sending: the logical clock advances by the delay in milliseconds
      var delayMs := email.timeDelay * MillisPerSecond;
      waitedMs := waitedMs + delayMs;
      var letter := Letter(userEmail, email);
      var emailSent := transport(calls, letter);
      trace := trace + [Attempt(delayMs, letter, emailSent)];
      if !emailSent {
        errors := errors + [email];
      }
      calls := calls + 1;
      empty := emails.IsEmpty();
    }
  }
}
