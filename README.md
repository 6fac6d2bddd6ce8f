# Email flow dispatcher, modelled in Dafny

The service accepts a "flow" on `POST /trigger-emails`: a trigger label
(`eventNameTrigger`), a recipient (`userEmail`) and an ordered list of
messages (`emails`), each with a subject, a body and a delay in seconds
(`timeDelay`). It checks the payload, puts the messages in a FIFO `Queue`,
and `processEmailQueue` drains that queue. For each message it asks for a
wait of `timeDelay * 1000` ms (Node's `setTimeout` shortens requests above
2147483647 ms, see "## Left out"), then calls
`sendEmail(userEmail, subject, emailBody)`.
A failed send is only logged, and dispatch carries on with the next message.

The repository holds two copies of this engine:
- `src/emailService.ts` is the exported app. Its handler awaits the whole dispatch and then answers.
- `src/index.ts` is a standalone server. Its handler starts the dispatch without awaiting it and answers at once.

The `Queue` class (index.ts:4-22), `processEmailQueue` (index.ts:54-69),
the payload check (index.ts:79-81) and the queue-filling loop
(index.ts:84-89) are textually the same as their emailService.ts
counterparts. Each is modelled once, and the table cites the emailService.ts
lines. Only the two handlers get a member each.

Files:
- `wrappers.dfy`: `Option`, standing for `T | undefined`.
- `queue.dfy`: `Queues.Queue`, a class whose `items` field is reassigned by `Enqueue` (push) and `Dequeue` (shift). Its ghost `Contents` is the abstract view.
- `flow.dfy`: `Flows`, the message records, the dispatch specification (`DispatchTrace`, `ErrorLog`, `SumDelays`, `WaitedMs`) and its lemmas. It also holds `ProcessEmailQueue`, the draining `while` loop proved against that specification.
- `requests.dfy`: `Requests`, the request record, the payload check, the response it selects, and the loop that fills a fresh queue.
- `email_service.dfy`, `standalone.dfy`: the two handlers.

How the environment is modelled:
- **Transport.** The transport is an oracle `Transport = (nat, Send) -> bool`. It gives the outcome of the k-th call of a flow made with the given arguments. This stands for `Math.random`, or for a test double. Given the oracle, the model is deterministic.
- **Time.** Time is a logical clock. Each step of the dispatch is an `Attempt(waitMs, send, delivered)`. `waitMs` is the message's `timeDelay * 1000`. `ProcessEmailQueue` also returns the total `waitedMs`.
- **Logging.** `console.error` becomes the `errors` output: the failed messages, in the order they failed.
- **Fields.** A request field that is absent or `null` is `None`. Following JavaScript truthiness, a string field also fails the check when it is `""`. Any array passes the check, the empty array included.

The two handlers differ in when they answer. `src/index.ts:97` starts the
dispatch without awaiting it and answers at once. `src/emailService.ts:86`
awaits the whole dispatch before it answers. `EmailService.TriggerEmails`
therefore returns the full dispatch trace together with its response.
`Standalone.TriggerEmails` returns the response and a pending flow that
`Flows.ProcessEmailQueue` drains later.

## Model

| member | source | states |
|---|---|---|
| Queues.Queue.constructor | src/emailService.ts:5-6 | a new queue starts with no items |
| Queues.Queue.Enqueue | src/emailService.ts:8-10 | the contents become the old contents plus the item at the back; the size grows by one and no earlier item changes |
| Queues.Queue.Dequeue | src/emailService.ts:12-14 | on a non-empty queue it returns the front item and leaves exactly the remaining items in order; on an empty queue it returns `undefined` (None) and the queue stays empty |
| Queues.Queue.Size | src/emailService.ts:16-18 | returns the number of items waiting |
| Queues.Queue.IsEmpty | src/emailService.ts:20-22 | true exactly when the size is zero, i.e. nothing is waiting |
| Flows.DispatchTrace | src/emailService.ts:45-57 | draining a queue of N messages makes exactly N wait-then-send steps |
| Flows.ErrorLog | src/emailService.ts:54-56 | no more failures are logged than there are messages |
| Flows.DispatchTraceAt | src/emailService.ts:46-53 | step i handles message i (FIFO): it waits that message's own `timeDelay * 1000` ms, whatever earlier sends returned, and then sends `(userEmail, subject, emailBody)` as the transport's i-th call |
| Flows.SendsFollowEmails | src/emailService.ts:43-58 | the transport calls are exactly one per message, in input order, each to the flow's `userEmail` with that message's subject and body |
| Flows.OutcomesDoNotAffectSends | src/emailService.ts:53-56 | failure isolation: the calls made are the same whatever the transport answers, so a `false` never stops a later send |
| Flows.TotalWait | src/emailService.ts:51 | the total logical wait of a flow is `1000 * sum(timeDelay)` ms |
| Flows.ErrorLogMembers | src/emailService.ts:54-56 | an email is logged as failed iff it is a message of the flow whose transport call returned `false` |
| Flows.FailedIsLogged | src/emailService.ts:53-56 | every message whose transport call returned `false` is logged |
| Flows.LoggedHasFailed | src/emailService.ts:53-56 | every logged email is a message of the flow whose transport call returned `false` |
| Flows.NoFailuresNoLog | src/emailService.ts:54-56 | when every send succeeds, nothing is logged |
| Flows.UniformDelays | src/emailService.test.ts:105-109 | messages that all wait `d` seconds add up to `d` seconds per message |
| Flows.TwoEmailsScenario | src/emailService.test.ts:38-53 | two zero-delay messages make two transport calls, first message first, with no waiting |
| Flows.TenEmailsScenario | src/emailService.test.ts:104-122 | ten one-second messages make ten transport calls and wait 10000 ms in total |
| Flows.ProcessEmailQueue | src/emailService.ts:43-58 | the loop empties the queue; its steps, its error log and its total wait are exactly those of the specification above, whatever the transport returns; the early `return` on a missing item is proved unreachable |
| Requests.Validate | src/emailService.ts:65-70 | a request is rejected iff `eventNameTrigger` or `userEmail` is absent, null or `""`, or `emails` is absent or null; an accepted request yields exactly its three fields |
| Requests.ResponseFor | src/emailService.ts:68-88 | the answer is 400 exactly when the payload is rejected, and 200 exactly when it is accepted |
| Requests.EmptyEmailsAccepted | src/emailService.test.ts:77-88 | an empty `emails` array is accepted and answered "Emails queued successfully" |
| Requests.MissingFieldRejected | src/emailService.test.ts:55-102 | a request missing any of the three fields is answered 400 "Invalid request payload" |
| Requests.BuildQueue | src/emailService.ts:72-78 | the fresh queue holds the request's emails in their original order |
| EmailService.TriggerEmails | src/emailService.ts:64-89 | an invalid payload gets 400 with no transport call; a valid one is dispatched in full, and only then answered 200, whatever the send outcomes |
| Standalone.TriggerEmails | src/index.ts:75-100 | the answer depends on the payload alone, since no transport is involved; a valid payload yields a pending flow whose fresh queue holds the emails in order, and an invalid one yields none |

## Left out

- Express setup, routing, `app.listen`, JSON body parsing and `res.status/send` plumbing: HTTP I/O. Only the response value each handler selects is modelled.
- `sendEmail` (src/sendEmail.ts, src/index.ts:42-51): it uses `Math.random` and a 1000 ms `setTimeout`. It is the transport oracle. Its own latency is not added to the logical clock, which counts only the dispatcher's waits.
- Real timers: replaced by the logical clock (`Attempt.waitMs`, `waitedMs`).
- Flows.TotalWait: the logical wait is the requested `timeDelay * 1000` ms. Node's `setTimeout` replaces any delay above 2147483647 ms (about 24.8 days) with 1 ms, so in the running program a message with `timeDelay` of 2147484 seconds or more is sent almost at once. The model does not capture this clamp.
- Flows.DispatchTrace: each step's `waitMs` is the requested delay. It is not the delay Node applies above 2^31 - 1 ms (see the line above).
- Flows.OutcomesDoNotAffectSends: the transport oracle can only answer `true` or `false`. `sendEmail` is awaited without `try`/`catch` (src/emailService.ts:53, src/index.ts:64), so a transport whose promise rejects ends `processEmailQueue` early, and the remaining messages are never sent. In src/emailService.ts the handler then never reaches `res.send` at line 88. The isolation lemma covers only `false` answers. The shipped `sendEmail` never rejects.
- Concurrency: flows started by the standalone server without awaiting run interleaved with each other and with new requests. The model is sequential: a pending flow is drained by a separate call, and cross-flow interleaving is not modelled.
- `console.error` formatting: only the list of failed messages is kept.
- Fractional or negative `timeDelay` (a JavaScript number): delays are whole seconds (`nat`).
- Malformed payloads beyond absent or null fields: these include non-string values for the string fields (for example `0` or `false`), an `emails` value that is truthy but not iterable (`for...of` would throw), and array elements that are `null` or lack fields. Messages are typed records.
