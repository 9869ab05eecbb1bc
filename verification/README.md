# Verification of the reminder and RSVP backend

A Dafny model of the protocols, state machines and loops of the multi-tenant reminder and RSVP service, with proofs. `dafny verify dfyconfig.toml` checks all of it.

The database is modelled as maps, sets and sequences, Redis as one key with a deadline on which each command is atomic, the job queue as attempts that may be repeated, and every answer of a provider as a parameter. Where the source interleaves (replicas, workers, scanners, browser callbacks), a module has a step relation and its theorems speak of all runs; where the source updates an object or loops, a class has the same fields and its methods are proved to take the steps of that relation or to compute the specified value.

| file | what it is about |
|---|---|
| `FixedWindow.dfy` | the INCR/EXPIRE counter behind rate limits and workflow limits |
| `PlanGates.dfy`, `UsageMeter.dfy` | the three plan gates, and checking before sending while counting after it |
| `Billing.dfy`, `PaystackWebhook.dfy`, `WebhookRaces.dfy` | a tenant's billing states, the event table in front of them, and deliveries handled at the same time |
| `TokenRefresh.dfy` | the browser's shared refresh after a 401 |
| `ReminderJob.dfy`, `ReminderStatus.dfy`, `Failover.dfy`, `Workflow.dfy` | reminder attempts, all writers of a reminder's status, channel cascades, workflow fan-out |
| `CampaignAudience.dfy`, `BookingSlots.dfy`, `ContactImport.dfy`, `TagSync.dfy` | loops against the sets they stand for |
| `CheckIn.dfy`, `GoogleReviews.dfy`, `ReviewRaces.dfy` | badge scans, review replies, and overlapping operations on one review |
| `Templates.dfy` | `{{word}}` placeholders |
| `Texts.dfy`, `Decimals.dfy`, `Arithmetic.dfy`, `Options.dfy`, `Rsvps.dfy` | joined texts, decimal numbers, arithmetic, optional values, RSVP answers |

Where code and documentation differ the code is modelled:

- The automation tracker calls its limit a rolling window; it is a fixed one, so nine executions can start in one hour (`FixedWindow.TrackerPerHour`, `FixedWindow.RollsIff`).
- Reminder retries are documented as five attempts with a dead letter queue; a failed send stores FAILED and the retry returns at once (`ReminderJob.SettledByFirst`, `ReminderJob.DeadLetteredIff`).
- The webhook's idempotency holds for sequential deliveries with an id in the payload; concurrent ones can charge a tenant's state twice, under an exact condition (`WebhookRaces.RacesAreHarmlessIff`, `PaystackWebhook.NamelessRedeliveryIsRoutedIff`).
- The monthly usage job leaves the call and WhatsApp counters alone (`PlanGates.MonthlyResetOpens`).
- A badge request can replace a token that another one has just handed out (`CheckIn.TokenIsFinalIff`), and an operation on a review that overlaps its approval can reopen it (`ReviewRaces.ApprovedIsFinalIff`).
- `fallbackOnUndelivered` is not honoured by the status webhook (`Failover.WebhookHonoursUndeliveredIff`).
- The booking step trusts the offer (`BookingSlots.StaleOfferDoubleBooks`), and a workflow's COMPLETED speaks of its last step only (`Workflow.CompletedEarlyIff`).

## Model

| member | source | states |
|---|---|---|
| FixedWindow.BoundedStep | src/modules/plan/rate-limit.service.ts:50-79 | One INCR, EXPIRE, lost call, clock tick or reset keeps the accounting of a window: each key incarnation admits at most `limit` calls and cannot die before it is one window old. |
| FixedWindow.BoundedRun | src/modules/plan/rate-limit.service.ts:50-79 | The accounting holds after every interleaving of any number of clients whose INCR and EXPIRE are separate steps. |
| FixedWindow.AdmittedPerWindow | src/modules/plan/rate-limit.service.ts:50-79 | Any closed interval as long as the window admits at most 2 * limit - 1 calls, and at most `limit` more for each reset inside it. |
| FixedWindow.TrackerPerHour | src/modules/automation/automation-execution-tracker.service.ts:35-65 | The tracker, with five executions an hour, lets at most nine start in any hour, and five more for each reset inside it. |
| FixedWindow.BoundIsAttained | src/modules/plan/rate-limit.service.ts:50-79 | The bound is exact: for every limit and window some run admits 2 * limit - 1 calls inside one window. |
| FixedWindow.BoundIsAttainedWithResets | src/modules/automation/automation-execution-tracker.service.ts:35-65 | The bound is exact with resets, too: for every number of them some run admits (resets + 2) * limit - 1 calls inside one window. |
| FixedWindow.RollsIff | src/modules/plan/rate-limit.service.ts:50-79 | In all runs without reset every interval of window length keeps to the limit if and only if the limit is one or less. |
| FixedWindow.ZeroLimitRefuses | src/modules/plan/rate-limit.service.ts:55-79 | A limit of zero or less admits nothing in any run. |
| FixedWindow.RemainingIsExact | src/modules/plan/rate-limit.service.ts:84-100 | The `remaining` that is reported for a live key is exactly how many of any number of further calls are admitted. |
| FixedWindow.StuckForGood | src/modules/plan/rate-limit.service.ts:55-62 | A full key that has no deadline and no call that owes it one refuses for ever. |
| FixedWindow.RecoversIff | src/modules/plan/rate-limit.service.ts:55-62 | A full key can admit again without a reset if and only if it has a deadline or some call still has its EXPIRE to send. |
| FixedWindow.LastCrashLocksOut | src/modules/plan/rate-limit.service.ts:55-62 | Once the last call that owes a full key its deadline is lost, no run without a reset admits a call. |
| FixedWindow.ResetGivesLimitBack | src/modules/automation/automation-execution-tracker.service.ts:62-65 | Of any number of calls that follow a reset exactly the limit is admitted, and that is what `remaining` says. |
| FixedWindow.Redis.Incr | src/modules/plan/rate-limit.service.ts:57 | INCR as one atomic step: the new key and the count it returns. |
| FixedWindow.Redis.Expire | src/modules/plan/rate-limit.service.ts:60-62 | EXPIRE as one atomic step. |
| FixedWindow.Redis.Del | src/modules/automation/automation-execution-tracker.service.ts:62-65 | DEL as one atomic step. |
| FixedWindow.WindowCounter.Enforce | src/modules/plan/rate-limit.service.ts:50-79 | One uninterrupted call: which Redis steps it takes, in which order, and that it is let through exactly if the window admits it. |
| FixedWindow.WindowCounter.GetRemaining | src/modules/plan/rate-limit.service.ts:84-100 | Reads the remaining calls and changes nothing. |
| FixedWindow.WindowCounter.ResetKey | src/modules/automation/automation-execution-tracker.service.ts:62-65 | `reset` is the reset step of the protocol. |
| PlanGates.UsageAndReminderAgree | src/workers/reminder.worker.ts:174-239 | Two independently written gates, the usage service's and the reminder worker's, decide alike for texts and calls on every tenant row, and the campaign gate never refuses what they allow. |
| PlanGates.CampaignIsLaxerExactlyWhen | src/workers/campaign.worker.ts:89-119 | The campaign worker allows a text that the usage service refuses if and only if an ended trial is still open with messages left, or a subscriber's monthly cap is spent. |
| PlanGates.ReminderWhatsAppExactlyWhen | src/workers/reminder.worker.ts:174-239 | The exact condition under which the reminder worker sends WhatsApp that the usage service would refuse. |
| PlanGates.RowCapsNeverConsulted | src/modules/plan/usage-validation.service.ts:153-192 | Contact, event and workflow caps never take part in a decision: subscribers are refused outright and trial tenants are never counted. |
| PlanGates.UsageGateIff | src/modules/plan/usage-validation.service.ts:106-330 | Which texts, calls, WhatsApp messages and AI uses the usage service allows, as one condition on the row, limits in figures. |
| PlanGates.RefusalMeans | src/modules/plan/usage-validation.service.ts:106-192 | Which refusal is given exactly when. |
| PlanGates.ReminderGateIff | src/workers/reminder.worker.ts:174-239 | What the reminder worker lets through besides texts and calls, as one condition on the row. |
| PlanGates.CampaignGateIff | src/workers/campaign.worker.ts:89-119 | What the campaign worker lets through on each channel, as one condition on the row. |
| PlanGates.PlansAscend | src/modules/plan/plan-limits.ts:35-88 | Each plan allows at least what the one below it does in every respect, and a trial less than any, except for AI. |
| PlanGates.CountUseIsOne | src/modules/plan/usage-validation.service.ts:334-348 | A use adds one to its own counter and changes nothing else; texts, calls, WhatsApp and AI do not share counters. |
| PlanGates.MonthlyResetOpens | src/modules/plan/usage-reset.job.ts:16-34 | The monthly reset opens the text and AI gates for exactly the tenants with access and a positive cap, and changes no verdict on calls and WhatsApp. |
| UsageMeter.MeterStep | src/modules/plan/usage-validation.service.ts:37-81 | One step of any writer keeps counted plus outstanding sends below cap plus peak. |
| UsageMeter.OvershootBound | src/workers/reminder.worker.ts:505-628 | Over every interleaving of the three check-then-increment writers with resets and time, counted plus outstanding stays below cap + W, where W is the largest total outstanding at once. |
| UsageMeter.OneAtATimeKeepsTheCap | src/modules/plan/usage-validation.service.ts:37-81 | With one send outstanding at a time the counter never exceeds the cap in any state of the run. |
| UsageMeter.SendsAreConserved | src/workers/reminder.worker.ts:505-628 | Between resets every send that was let through is counted, lost or outstanding, in every interleaving. |
| UsageMeter.AlwaysPossible | src/workers/reminder.worker.ts:505-628 | No writer waits for another: each step of the meter is possible whenever its job has sends outstanding. |
| UsageMeter.OvershootIsAttained | src/workers/reminder.worker.ts:505-628 | The overshoot is real: for every W >= 1 a run of a live trial ends with exactly limit - 1 + W counted. |
| UsageMeter.CampaignsAreUncapped | src/workers/campaign.worker.ts:201-274 | A paying tenant's campaigns count any number of texts, one at a time, whatever the plan's cap. |
| UsageMeter.UsageService.ValidateAndIncrement | src/modules/plan/usage-validation.service.ts:37-81 | Throws exactly when the gate refuses and then changes nothing; otherwise exactly one counter grows by one, the remaining texts it reports fit the counter after the increment, and a text takes the check step and then the count step of the meter. |
| UsageMeter.UsageService.IncrementUsage | src/modules/plan/usage-validation.service.ts:334-348 | One counter is one higher, the others and the rest of the row are as they were; for texts this is the count step of the meter, whichever job it belongs to. |
| UsageMeter.UsageService.ResetMonthlyUsage | src/modules/plan/usage-reset.job.ts:16-34 | The reset is the reset step of the meter, on whatever jobs are under way, and leaves everything but counters alone. |
| Billing.ReachableIsConsistent | src/modules/billing/billing.service.ts:277-515 | In every state reachable from registration by any sequence of billing writes, stale ones included, with messages counted and counters reset in between: ACTIVE or EXPIRED has no active trial, an active trial has an end date no earlier than its start, and ACTIVE carries its plan's limits. |
| Billing.RegisteredIsRefused | src/modules/auth/auth.service.ts:50-75 | A new tenant is refused everything by every gate until a card or a payment. |
| Billing.TrialLasts | src/modules/billing/billing.service.ts:277-321 | After the first card texts are allowed up to the last millisecond of the trial's days and up to the trial limit, and the hourly job finds the trial from then on; the card is kept. |
| Billing.VerifiedTrialLasts | src/modules/billing/billing.service.ts:636-703 | A verified payment opens fourteen days in the same way. |
| Billing.SubscriptionGives | src/modules/billing/billing.service.ts:325-378 | A subscription opens exactly its plan's features up to its plan's allowances, in figures, counted from zero. |
| Billing.LapsedIsRefused | src/modules/billing/billing.service.ts:382-421 | A cancelled tenant is CANCELLED, an overdue one PAST_DUE; both are refused everything by every gate, unless a trial is running. |
| Billing.EveryUsageIsReachable | src/modules/plan/usage-validation.service.ts:334-348 | The reachable states include every number of texts counted in a trial. |
| Billing.SmsNeedsSubscriptionOrTrial | src/modules/plan/usage-validation.service.ts:106-149 | In every reachable state the usage and reminder gates allow texts only to an active subscription or before the trial's end. |
| Billing.CampaignOutsideExactlyWhen | src/workers/campaign.worker.ts:89-119 | In reachable states the campaign gate allows a text outside both conditions if and only if an ended trial has not been closed yet and has messages left. |
| Billing.ClosedTrialsExactlyWhen | src/modules/billing/billing.service.ts:451-515 | After the hourly job an ended trial is still active if and only if its status had moved to PAST_DUE or CANCELLED; a second run changes nothing. |
| Billing.StaleCronExpiresPayingTenant | src/modules/billing/billing.service.ts:451-515 | Whatever writes come between the job's read and its write: a tenant that is ACTIVE by then stays so if and only if the row that was read had a card on file, and no later run of the job changes the row again. |
| Billing.LateClosingKeepsAccessIff | src/modules/billing/billing.service.ts:451-515 | A tenant that may text when the late write comes may still text after it if and only if a card was on file at the read and the row is ACTIVE by then. |
| Billing.BillingService.Update | src/modules/billing/billing.service.ts:277-421 | Every billing operation is one write to one row; an unknown tenant is an error and nothing changes. |
| Billing.BillingService.ProcessExpiredTrials | src/modules/billing/billing.service.ts:451-515 | The hourly loop closes exactly the expired trials, skips those whose update throws and goes on, and touches nobody else. |
| PaystackWebhook.SameAsDeduplicated | src/modules/billing/paystack-webhook.controller.ts:50-101 | A sequential stream with repeated event ids leaves the same store as its first occurrences. |
| PaystackWebhook.Remembers | src/modules/billing/paystack-webhook.controller.ts:50-67 | The processed-event table holds exactly the ids of the deliveries whose insert went through. |
| PaystackWebhook.RedeliveryIsNoOp | src/modules/billing/paystack-webhook.controller.ts:50-67 | A redelivery can be removed from anywhere in a stream, with failing deliveries around it, without changing the outcome. |
| PaystackWebhook.FailedEventIsLost | src/modules/billing/paystack-webhook.controller.ts:50-101 | An event whose handler fails after it was recorded is never taken up again: what its first delivery wrote stays, which is nothing or all of it, depending on where it failed. |
| PaystackWebhook.FallbackIdsCollideIff | src/modules/billing/paystack-webhook.controller.ts:50 | Two deliveries without an id share a table entry if and only if they have one name and one millisecond. |
| PaystackWebhook.NamelessRedeliveryIsRoutedIff | src/modules/billing/paystack-webhook.controller.ts:50-67 | A redelivery without an id is processed again if and only if it comes in another millisecond. |
| PaystackWebhook.SecondRoutingIsNoOpIff | src/modules/billing/paystack-webhook.controller.ts:69-99 | Routing a delivery twice does what routing it once does if and only if it is not the first charge, with a plan, of a tenant trialing without a running trial. |
| PaystackWebhook.ConcurrentDuplicateChargesTwice | src/modules/billing/paystack-webhook.controller.ts:64-67 | For every first charge with a plan: when a duplicate passes the table, one payment both starts the trial and ends it with a subscription, where the sequential stream leaves the trial running. |
| PaystackWebhook.StreamKeepsConsistent | src/modules/billing/paystack-webhook.controller.ts:50-243 | No stream of deliveries leaves the consistent billing states or adds or removes a tenant. |
| PaystackWebhook.ChargeStartsTrialExactlyWhen | src/modules/billing/paystack-webhook.controller.ts:141-192 | A charge with a plan starts a trial if and only if the tenant is TRIALING without an active trial, and a closed trial with a card on file is again in that state. |
| PaystackWebhook.EventOutcome | src/modules/billing/paystack-webhook.controller.ts:141-243 | What each event leaves on its tenant's row, the plan paid for being the plan given and an unknown code the smallest plan, and that no other row changes. |
| PaystackWebhook.StrangersChangeNothing | src/modules/billing/paystack-webhook.controller.ts:148-158 | An event of a missing or unknown email changes nothing. |
| PaystackWebhook.Controller.HandleWebhook | src/modules/billing/paystack-webhook.controller.ts:50-101 | The check, the insert and the routing together do what the specified step of the store does. |
| PaystackWebhook.Controller.HandleChargeSuccess | src/modules/billing/paystack-webhook.controller.ts:141-192 | The branches of a charge, down to the rows it leaves. |
| WebhookRaces.RowSettles | src/modules/billing/paystack-webhook.controller.ts:141-243 | Once an event's write is made, a handler that decided before it or decides after it leaves the row as it is, dates aside, unless the event is such a first charge. |
| WebhookRaces.AlwaysPossible | src/modules/billing/paystack-webhook.controller.ts:50-101 | Each handler can take its next step, fail at the table or die, whatever the others do. |
| WebhookRaces.RaceIsOneDelivery | src/modules/billing/paystack-webhook.controller.ts:50-243 | Any number of concurrent handlers of one event, in any interleaving of look-up, insert, read and write, with table errors and crashes, leave what one of them leaves, dates aside; for a first charge with a plan as long as none that read after another's write has written. |
| WebhookRaces.TwoHandlersAgreeIff | src/modules/billing/paystack-webhook.controller.ts:141-192 | Two handlers of a first charge with a plan do what one does if and only if both read the row before either wrote. |
| WebhookRaces.RacesAreHarmlessIff | src/modules/billing/paystack-webhook.controller.ts:53-67 | With two or more duplicates every interleaving is harmless if and only if the event is not such a charge. |
| WebhookRaces.TableStopsLatecomers | src/modules/billing/paystack-webhook.controller.ts:53-63 | While the table answers, once a handler is past it the id is recorded, and no handler that looks after that ever writes. |
| WebhookRaces.RecordedIsSkipped | src/modules/billing/paystack-webhook.controller.ts:53-60 | An event that was recorded before is processed by no number of handlers. |
| TokenRefresh.InvStep | frontend/src/lib/api.ts:38-108 | Every callback keeps the protocol invariant. |
| TokenRefresh.InvRun | frontend/src/lib/api.ts:38-108 | The invariant holds after every run. |
| TokenRefresh.SingleFlight | frontend/src/lib/api.ts:38-108 | In every run at most one refresh is in flight, nobody waits without one, every waiter is settled exactly once for each time it waited, and n requests cause at most n refreshes. |
| TokenRefresh.RefreshStartsIff | frontend/src/lib/api.ts:56-106 | For every response: a refresh starts, a request waits, settles or is rejected, each exactly under its condition; only a 401 of a request that is neither an authentication call nor marked takes part. |
| TokenRefresh.RefreshEnds | frontend/src/lib/api.ts:76-103 | A successful refresh sends leader and waiters again, a failed one rejects them, and no other request is touched. |
| TokenRefresh.ReleasedMayLead | frontend/src/lib/api.ts:66-70 | A waiter that is sent again carries no mark, so it may lead the next refresh. |
| TokenRefresh.MeasureStep | frontend/src/lib/api.ts:57-108 | Every step except a new request lowers the measure. |
| TokenRefresh.MeasureIsQuadratic | frontend/src/lib/api.ts:57-108 | The measure is at most quadratic in the number of requests. |
| TokenRefresh.RunsEnd | frontend/src/lib/api.ts:57-108 | Without new requests no run is longer than the measure: every page comes to rest. |
| TokenRefresh.NoDeadlock | frontend/src/lib/api.ts:57-108 | A page can only rest when every request is settled, and the other way round. |
| TokenRefresh.RefreshPerRequest | frontend/src/lib/api.ts:64-108 | The bound is attained: some run of n requests makes n refreshes. |
| TokenRefresh.OneRound | frontend/src/lib/api.ts:64-108 | A lone request that meets an expired session leads one refresh, is retried and succeeds. |
| TokenRefresh.Api.ProcessQueue | frontend/src/lib/api.ts:45-54 | The loop settles exactly the queued promises and empties the queue. |
| TokenRefresh.Api.OnResponse | frontend/src/lib/api.ts:56-74 | The interceptor's branches do what the protocol step does and keep the invariant. |
| TokenRefresh.Api.OnRefreshDone | frontend/src/lib/api.ts:76-103 | Both ends of a refresh, and the flag's reset, do what the protocol step does and keep the invariant. |
| Failover.WebhookHonoursUndeliveredIff | src/modules/messaging/twilio-webhook.controller.ts:149-160 | The status webhook passes no trigger, so an undelivered message is treated as its own setting says if and only if the strategy in force sets both triggers alike. |
| Failover.ChainComesFrom | src/modules/messaging/message-failover.service.ts:193-267 | Which settings decide: the rule's strategy, else the default one, by its flag and with its chain alone; else the legacy switch and chain. |
| Failover.First | src/modules/messaging/message-failover.service.ts:110-130 | The first index of a channel, or none where the chain lacks it. |
| Failover.CascadeFollowsChain | src/modules/messaging/message-failover.service.ts:110-186 | Where no channel is repeated further on, n escalations walk the next n channels of the chain and stop at its end. |
| Failover.CascadeNeverPasses | src/modules/messaging/message-failover.service.ts:110-130 | A repeated channel is a wall: every cascade that starts before it stays before it for any number of escalations. |
| Failover.CascadeEndsIff | src/modules/messaging/message-failover.service.ts:110-130 | The cascade from a channel ends if and only if the chain repeats nothing beyond that channel's first place; otherwise it goes on for ever. |
| Failover.ClimbsRun | src/modules/messaging/message-failover.service.ts:87-187 | With a duplicate-free chain and callbacks in any order, every message sent stands strictly later in the chain than those before it. |
| Failover.CascadeIsBounded | src/modules/messaging/message-failover.service.ts:87-187 | With one terminal callback for each message a reminder causes at most length(chain) - 1 fallback sends and uses no channel twice. |
| Failover.CascadeSkipsNothing | src/modules/messaging/message-failover.service.ts:87-187 | The messages of a reminder are the chain from its first channel on, as far as it got. |
| Failover.DefaultCascade | src/modules/messaging/message-failover.service.ts:245-252 | With default settings a failed text is followed by at most WhatsApp and then a call. |
| Failover.SecondReportSendsAgain | src/modules/messaging/twilio-webhook.controller.ts:149-160 | A second callback for one message sends the next channel again exactly where the chain resolves, goes on and stays within the plan; otherwise neither callback sends. |
| Failover.FailoverService.TriggerFallbackChannel | src/modules/messaging/message-failover.service.ts:87-187 | What is sent, what is logged and what is returned in every branch: no chain, end of chain, voice outside the plan, provider refusal, which is reported as triggered all the same. |
| ReminderJob.SelectIsDistinct | src/workers/reminder.worker.ts:524-598 | No contact is selected twice. |
| ReminderJob.SelectedAreWilling | src/workers/reminder.worker.ts:542-587 | Only the named, participating, not unsubscribed contacts are selected. |
| ReminderJob.SelectedIff | src/workers/reminder.worker.ts:542-587 | For events, exactly who is selected and at which address: nobody if non-responders are excluded and one is meant, otherwise everybody meant who has not declined or unsubscribed. |
| ReminderJob.CustomerSelectedIff | src/workers/reminder.worker.ts:524-541 | An appointment's reminder goes exactly to its customer, unless unsubscribed. |
| ReminderJob.SendLoop | src/workers/reminder.worker.ts:600-679 | The loop, which may be cut off after any statement, sends at most once to each contact with an address, and its rows, counted uses and sends differ by at most the one that was cut. |
| ReminderJob.UncutLoopReachesAll | src/workers/reminder.worker.ts:600-679 | A loop that is not cut sends to every recipient with an address that the provider accepts. |
| ReminderJob.RunStep | src/workers/reminder.worker.ts:485-699 | One attempt: a settled job changes nothing, an attempt that is not cut settles it, and SENT means that it sent something. |
| ReminderJob.AttemptsInvariant | src/workers/reminder.worker.ts:485-699 | Over any number of attempts, sends to one contact, rows and counted uses differ by at most the number of cut attempts, and the job is PENDING only while all were cut. |
| ReminderJob.UncutJob | src/workers/reminder.worker.ts:485-699 | Without a cut: each contact is sent to at most once over all attempts, rows = counted uses = sends, and SENT holds if and only if some send succeeded. |
| ReminderJob.SettledByFirst | src/workers/reminder.worker.ts:490-495 | Every attempt after the first returns without effect. |
| ReminderJob.SendsExactly | src/workers/reminder.worker.ts:600-679 | The loop, cut after any number of effects, sends to a recipient if and only if it has an address, the provider accepts, and the effects before its turn fit. |
| ReminderJob.AttemptExactly | src/workers/reminder.worker.ts:485-699 | An attempt on a pending row sends to a contact once or not at all, exactly as stated, and leaves the row pending if and only if its effects do not suffice for the last update. |
| ReminderJob.EndingMeans | src/workers/reminder.worker.ts:505-699 | What an uncut attempt leaves: SENT, FAILED with an error, or CANCELLED, each exactly when. |
| ReminderJob.SendsAreCounted | src/workers/reminder.worker.ts:485-699 | Over any attempts a contact is sent to exactly as often as there are attempts that find the row pending and come to that contact. |
| ReminderJob.AtMostOnceIff | src/workers/reminder.worker.ts:485-699 | At most one send to a contact if and only if no two attempts are of that kind. |
| ReminderJob.CutsSendAgain | src/workers/reminder.worker.ts:600-699 | For every reachable contact of every attempt and every n some run with n cuts sends to that contact n + 1 times. |
| ReminderJob.DeadLetteredIff | src/workers/reminder.worker.ts:823-856 | The dead letter queue is reached if and only if every attempt but the last was cut and the last one did not return, so a failed send is never retried into it. |
| ReminderJob.EverySendWasWilling | src/workers/reminder.worker.ts:542-679 | Over a whole job, cut or not, every send went to a contact who was named, taking part and not unsubscribed in the rows of the attempt that sent. |
| ReminderJob.OneNamedSend | src/workers/reminder.worker.ts:542-587 | A reminder that names a contact sends to nobody else, not at all if the contact takes no part, and at most once plus once for each cut attempt. |
| ReminderJob.EventSendsBound | src/workers/reminder.worker.ts:542-587 | One reminder for each contact: all jobs of an event together send at most as many messages as named contacts take part, plus one for each cut attempt, whatever each job saw of the table. |
| ReminderJob.RowsWithoutContactFanOut | src/workers/reminder.worker.ts:542-587 | A reminder that names no contact sends to every willing participant. |
| ReminderJob.Worker.FindTargets | src/workers/reminder.worker.ts:542-560 | The first filter of the selection. |
| ReminderJob.Worker.KeepEligible | src/workers/reminder.worker.ts:561-587 | The second filter and the address it takes. |
| ReminderJob.Worker.SelectParticipants | src/workers/reminder.worker.ts:542-587 | Both filters together give the specified selection. |
| ReminderJob.Worker.SendToAll | src/workers/reminder.worker.ts:600-679 | The loop over recipients leaves the sends, counters and rows of the specified loop. |
| ReminderJob.Worker.Process | src/workers/reminder.worker.ts:485-699 | One attempt of the processor leaves the specified state and ending. |
| ReminderStatus.NeverPendingAgain | src/workers/reminder.worker.ts:490-495 | Whoever writes the status, a reminder that has left PENDING never returns to it, and no further attempt works on it. |
| ReminderStatus.OverwrittenBy | src/modules/messaging/twilio-webhook.controller.ts:101-109 | Which writers can change a settled status, and to what. |
| ReminderStatus.ReplyCancelsIff | src/modules/rsvp/rsvp-processor.service.ts:190-200 | A reply cancels pending reminders only. |
| ReminderStatus.FlightsAfter | src/workers/reminder.worker.ts:477-495 | Only a pending row gets a new attempt, and an attempt leaves the failed handler to run exactly when it ends in error without a retry. |
| ReminderStatus.PendingCanBecome | src/workers/reminder.worker.ts:681-699 | A pending reminder can come to every other status. |
| ReminderStatus.LastCutFails | src/workers/reminder.worker.ts:834-842 | A last attempt that is cut leads to FAILED through the failed handler. |
| ReminderStatus.StaleCancellationHidesSend | src/modules/reminder/reminder-scheduler.service.ts:231-247 | A cancellation that began while the reminder was pending marks it cancelled although it was sent meanwhile. |
| ReminderStatus.CancelledIsFinalIff | src/modules/reminder/reminder-scheduler.service.ts:230-280 | A cancelled reminder stays cancelled in every continuation if and only if none of its messages is in the log and no attempt that read it as PENDING is at work or has its failed handler to come. |
| CampaignAudience.RowsExact | src/modules/campaign/campaign.service.ts:427-446 | The filtered and ordered rows are the tenant's contacts that have not unsubscribed, each once, in ascending id order. |
| CampaignAudience.PageContinues | src/modules/campaign/campaign.service.ts:427-446 | A page fetched behind the last row of the previous one begins exactly where that one stopped. |
| CampaignAudience.OptOutBetweenPagesDropsOne | src/modules/campaign/campaign.service.ts:427-446 | If the contact behind the cursor opts out between two pages, exactly the next eligible contact is left out. |
| CampaignAudience.RestIsCompleteIff | src/modules/campaign/campaign.service.ts:427-446 | The rows behind a cursor are exactly the eligible contacts with a larger id if and only if the cursor's contact is still eligible or nobody behind it is. |
| CampaignAudience.TaggedExact | src/modules/campaign/campaign.service.ts:399-426 | The tag arm lists exactly the reachable holders of the tag, each once, and the count agrees with the list. |
| CampaignAudience.AudienceExact | src/modules/campaign/campaign.service.ts:377-448 | On both arms the resolved audience is exactly the tenant's contacts that have not unsubscribed, with the tag if there is one, without repetition, and as long as `countAudience` says. |
| CampaignAudience.CampaignService.ResolveAll | src/modules/campaign/campaign.service.ts:427-446 | The paging loop ends and returns all rows for every table and batch size. |
| CampaignAudience.CampaignService.ResolveAudience | src/modules/campaign/campaign.service.ts:399-448 | The resolved list of a segment, on both arms. |
| CampaignAudience.CampaignService.DispatchCampaign | src/modules/campaign/campaign.service.ts:452-530 | Unknown segment and exceeded limit exactly as the source refuses them, with each plan's limit in figures; otherwise one job for each contact of the audience, to its phone or else its email, none twice, and no more than the limit. |
| Decimals.DecimalRoundTrip | src/modules/automation/workflow-engine.service.ts:104 | A number written into a text reads back as itself, so no two numbers are written alike. |
| BookingSlots.TimeRoundTrip | src/modules/booking-widget/booking-widget.service.ts:151-170 | A slot's HH:MM parses back to the same minute. |
| BookingSlots.TimeShape | src/modules/booking-widget/booking-widget.service.ts:164-170 | Times are two digits of hour, a colon, and two of minute. |
| BookingSlots.BookingKeepsApartIff | src/modules/booking-widget/booking-widget.service.ts:227-236 | The insert, which checks nothing, keeps the day's appointments pairwise disjoint if and only if the time is free for the booked duration. |
| BookingSlots.OfferedIff | src/modules/booking-widget/booking-widget.service.ts:150-172 | A grid time is offered if and only if its interval lies in the working hours and booking it keeps the day disjoint. |
| BookingSlots.LongerServiceCollidesIff | src/modules/booking-widget/booking-widget.service.ts:178-236 | A service longer than the duration the slots were asked for collides if and only if an appointment begins between the two ends. |
| BookingSlots.RunsNeverDoubleBook | src/modules/booking-widget/booking-widget.service.ts:143-236 | Any run of bookings of currently offered slots, for services no longer than the offer was asked for, and cancellations keeps the day disjoint and new appointments inside the working hours. |
| BookingSlots.StaleOfferDoubleBooks | src/modules/booking-widget/booking-widget.service.ts:178-236 | Booking one offer twice, as two visitors can, double-books. |
| BookingSlots.BookingService.GetAvailableSlots | src/modules/booking-widget/booking-widget.service.ts:113-174 | The stepping loop returns exactly the grid times in the working window whose interval misses every appointment, in strictly ascending order. |
| BookingSlots.BookingService.Book | src/modules/booking-widget/booking-widget.service.ts:227-236 | The insert appends the appointment without a second look. |
| CheckIn.InvRun | src/modules/event/event.service.ts:548-634 | The invariant holds after every interleaving of any number of scanners, which may die between statements, invitations, badge requests and replies. |
| CheckIn.WonCounts | src/modules/event/event.service.ts:580-600 | A winning update adds one arrival and one winning scan, and no thank-you yet. |
| CheckIn.AdmittedOnce | src/modules/event/event.service.ts:548-634 | From any guest list before the doors open, with scanners dying anywhere: the update of at most one scan matches a participant, one does as soon as any scan finds the participant arrived, the arrived figure equals these scans, successes are at most thank-yous at most wins, and thank-yous go to guests with a phone only. |
| CheckIn.ThankedOnceIff | src/modules/event/event.service.ts:581-634 | An arrived guest with a phone is thanked exactly once if and only if the scan that recorded the arrival is not stuck or dead before the thank-you, and counts as a success if and only if that scan got to its answer. |
| CheckIn.ArrivalIsFinal | src/modules/event/event.service.ts:246-634 | Neither scans nor re-invitations nor badge requests nor replies change an arrival once set. |
| CheckIn.AnswerAfter | src/modules/event/event.service.ts:417-600 | After any step the answer on record is the participant's own reply, Confirmed on arrival, or unchanged; and only the winning update records an arrival. |
| CheckIn.AlwaysPossible | src/modules/event/event.service.ts:246-452 | Scans, invitations, badge requests and every reply are possible at any time; a new guest starts as invited, with the token. |
| CheckIn.TokenIsFinalIff | src/modules/event/event.service.ts:509-526 | A token is never replaced in any run if and only if no badge request that found the participant without one is still on its way. |
| CheckIn.AnswersAddUp | src/modules/event/event.service.ts:636-659 | The four answer figures add up to the number of participants. |
| CheckIn.EventService.FindByToken | src/modules/event/event.service.ts:548-580 | The read finds the one carrier of a badge, or none. |
| CheckIn.EventService.ClaimArrival | src/modules/event/event.service.ts:580-600 | The conditional update, and a count of one exactly when it was the first. |
| CheckIn.EventService.ThankGuest | src/modules/event/event.service.ts:596-622 | The thank-you step: one message if there is a phone, and the scan moves on. |
| CheckIn.EventService.ProcessArrival | src/modules/event/event.service.ts:548-634 | One uninterrupted scan: which answer is given exactly when, and the whole new table. |
| CheckIn.EventService.GenerateQrCode | src/modules/event/event.service.ts:509-526 | One uninterrupted badge request takes the ask step and, without a token, the store step; the token handed out is the participant's. |
| CheckIn.EventService.InviteAll | src/modules/event/event.service.ts:246-324 | The upsert loop adds exactly the known contacts that were not invited, leaves every other row alone, and invited + skipped is the number of ids. |
| Workflow.JobIdsDiffer | src/modules/automation/workflow-engine.service.ts:104 | Job ids are injective in execution and step. |
| Workflow.QueueActions | src/modules/automation/workflow-engine.service.ts:89-110 | Step i waits for the prefix sum of the delays, exactly the last step is marked last, delays never fall and no two jobs share an id. |
| Workflow.CountersAddUp | src/modules/automation/workflow-processor.service.ts:64-134 | Under any order and any retries run + skipped equals the finished jobs plus the attempts lost after their increment, and at most n jobs finish. |
| Workflow.CountersByOutcome | src/modules/automation/workflow-processor.service.ts:64-134 | `actionsRun` counts exactly the executed attempts and `actionsSkipped` the passed-over ones. |
| Workflow.FinishedIff | src/modules/automation/workflow-processor.service.ts:64-134 | A step is finished if and only if one of its attempts finished. |
| Workflow.CompletedMeans | src/modules/automation/workflow-processor.service.ts:109-134 | COMPLETED if and only if an attempt of the last step got to its end and nothing has failed since; RUNNING if and only if neither ever happened. |
| Workflow.CompletedEarlyIff | src/modules/automation/workflow-processor.service.ts:109-134 | Without failures COMPLETED goes with the last step alone, so it is set early if and only if another step is outstanding by then. |
| Workflow.InOrderCompletes | src/modules/automation/workflow-processor.service.ts:64-134 | With in-order, failure-free runs COMPLETED is set exactly when the counters reach the number of steps. |
| Workflow.Processor.EvaluateConditions | src/modules/automation/workflow-processor.service.ts:326-342 | True exactly if all conditions pass; evaluation stops right after the first that does not. |
| Workflow.Processor.ProcessJob | src/modules/automation/workflow-processor.service.ts:64-134 | One attempt leaves the counters and status of the specified step and throws exactly on a failed action. |
| Templates.WordPrefix | src/modules/messaging/template-renderer.service.ts:32-43 | The longest run of word characters at the front. |
| Templates.MatchExact | src/modules/messaging/template-renderer.service.ts:32-43 | The expression matches at the front of a text if and only if the text begins with a word in double braces. |
| Templates.WordCharsAre | src/modules/messaging/template-renderer.service.ts:32-43 | The word characters by code point. |
| Templates.ScanIsTheReading | src/modules/messaging/template-renderer.service.ts:32-43 | The scanner's tokens are the only reading of a template in which no literal hides a placeholder. |
| Templates.ScanJoins | src/modules/messaging/template-renderer.service.ts:32-43 | The tokens of every template join back to it. |
| Templates.UnknownKeysStay | src/modules/messaging/template-renderer.service.ts:32-43 | Without known keys all three renderers are the identity. |
| Templates.WorkersAgree | src/modules/automation/workflow-processor.service.ts:17-26 | The campaign worker and the workflow processor render every template alike, for every record. |
| Templates.ServiceAgreesIff | src/workers/campaign.worker.ts:62-67 | The renderer service agrees with them if and only if no placeholder of the template names an own property that is null or undefined. |
| Templates.ValuesAreNotRescanned | src/modules/messaging/template-renderer.service.ts:32-43 | In every template each substituted value stands in the result as it is, between the renderings of what comes before and after it. |
| Templates.KnownValuesAreWritten | src/workers/campaign.worker.ts:62-67 | What each renderer writes for own, inherited, null, undefined and unknown keys. |
| Templates.KnownPlaceholderIsReplaced | src/modules/messaging/template-renderer.service.ts:32-43 | In every template a placeholder with a text value reads as that text in all three renderers. |
| Templates.LiteralsStay | src/modules/messaging/template-renderer.service.ts:32-43 | Text without an opening brace is never changed. |
| Templates.SecondRenderingIsIdentity | src/modules/messaging/template-renderer.service.ts:32-43 | If no literal text has an opening brace and every value either has none or keeps its placeholder, rendering the result again changes nothing. |
| Templates.SecondRenderingReplaces | src/modules/messaging/template-renderer.service.ts:32-43 | A value that is itself a placeholder is replaced by a second rendering. |
| ContactImport.NormalizedPhone | src/modules/contacts/contact-import.service.ts:67-72 | A normalised phone is seven to fifteen digits and normalises to itself, so the later check for short phones never fires. |
| ContactImport.SeparatorsDoNotMatter | src/modules/contacts/contact-import.service.ts:67-72 | Any character that is no digit can be put in or left out of a phone without changing what is kept. |
| ContactImport.PlainPhoneKeptIff | src/modules/contacts/contact-import.service.ts:67-72 | A number of digits alone is kept as it is if and only if it has seven to fifteen. |
| Texts.SplitAtSeparator | src/modules/contacts/contact-import.service.ts:219-228 | Joined texts whose last parts hold equally many separators are equal only part by part. |
| ContactImport.KeyTellsApartIff | src/modules/contacts/contact-import.service.ts:219-228 | Parsed rows are the same contact if and only if they share a key and have equally many bars in their emails. |
| ContactImport.KeyIsInjective | src/modules/contacts/contact-import.service.ts:219-228 | The key name-phone-email tells contacts apart for every name, bars included, when emails have no bar. |
| ContactImport.BarredEmailCollides | src/modules/contacts/contact-import.service.ts:219-228 | Every email that begins with digits, or nothing, and a bar collides: some other contact has the same key. |
| ContactImport.DedupKeepsFirstsIff | src/modules/contacts/contact-import.service.ts:219-228 | Deduplication keeps exactly the first row of each contact, in order, if and only if no two rows share a key with different numbers of bars in their emails; otherwise it loses contacts. |
| ContactImport.FailedChunksAre | src/modules/contacts/contact-import.service.ts:236-255 | The reported chunk numbers are exactly those, from 1, that the database refused. |
| ContactImport.ImportService.Deduplicate | src/modules/contacts/contact-import.service.ts:219-228 | The loop over `seen` computes the specified deduplication. |
| ContactImport.ImportService.InsertChunk | src/modules/contacts/contact-import.service.ts:236-255 | One chunk's rows are all inserted, skipped or failed. |
| ContactImport.ImportService.InsertAll | src/modules/contacts/contact-import.service.ts:234-255 | The chunks concatenate to the rows, all but the last hold 500, and every row is accounted for. |
| ContactImport.ImportService.BulkInsertContacts | src/modules/contacts/contact-import.service.ts:212-262 | Inserted + skipped + rows of failed chunks is the input length, and what is handed over is the deduplicated input in chunks of 500. |
| TagSync.SyncedNames | src/modules/contacts/contacts.service.ts:518-607 | After a sync the contact's linked names are exactly the normalised ones. |
| TagSync.NormalisedIs | src/modules/contacts/contacts.service.ts:520-522 | A name is among the normalised ones if and only if it is not empty and some given tag normalises to it. |
| TagSync.DifferenceIsLogged | src/modules/contacts/contacts.service.ts:574-601 | The two filters over names log, as sets, exactly new without old and old without new. |
| TagSync.ContactsService.FindTag | src/modules/contacts/contacts.service.ts:548-553 | The unique key finds the tenant's tag of a name or proves it absent. |
| TagSync.ContactsService.LinkTag | src/modules/contacts/contacts.service.ts:547-559 | The two upserts leave the name linked, add nothing else, and change nothing where it was linked. |
| TagSync.ContactsService.LinkAll | src/modules/contacts/contacts.service.ts:547-559 | The loop links every name and no other. |
| TagSync.ContactsService.Log | src/modules/contacts/contacts.service.ts:577-601 | One activity entry for each name, in order. |
| TagSync.ContactsService.Unlink | src/modules/contacts/contacts.service.ts:561-569 | Removing the links to other names completes the sync. |
| TagSync.ContactsService.Relink | src/modules/contacts/contacts.service.ts:534-569 | The link table after a sync; other contacts' links and existing tags are untouched, and a synced contact's tables do not change. |
| TagSync.ContactsService.SyncTags | src/modules/contacts/contacts.service.ts:518-607 | The whole call: the linked names are exactly the non-empty normalised forms of the given tags, the log holds exactly the additions and removals, and a second call changes and logs nothing. |
| GoogleReviews.SyncKeeps | src/modules/google-review/google-review.service.ts:327-368 | A sync adds exactly the unknown fetched reviews and changes no known row. |
| GoogleReviews.SyncImports | src/modules/google-review/google-review.service.ts:335-362 | A new row is what its first occurrence on the pages says: approved if and only if Google has a reply, with that as its draft. |
| GoogleReviews.RepeatedSyncIsNoOp | src/modules/google-review/google-review.service.ts:327-368 | Syncing the same pages again changes nothing, ids repeated across pages or not. |
| GoogleReviews.RunsKeep | src/modules/google-review/google-review.service.ts:455-693 | Over every sequential run SUGGESTED implies a suggestion, and posts are the lost updates, plus one for an approval, which is certain if there was a loss. |
| GoogleReviews.PostedOnce | src/modules/google-review/google-review.service.ts:602-661 | Over sequential runs a review is posted at most once if and only if no update after a post was lost, or one was and the review is not approved; before its approval posts are the losses, and an approval after a loss makes one more. |
| GoogleReviews.LostUpdatePostsTwice | src/modules/google-review/google-review.service.ts:602-661 | If the update after a post fails, the next approval posts the reply a second time. |
| GoogleReviews.ApprovedIsFinal | src/modules/google-review/google-review.service.ts:576-693 | APPROVED is absorbing over sequential runs: no operation that reads an approved review changes it. |
| GoogleReviews.OpenReviewAfter | src/modules/google-review/google-review.service.ts:539-693 | What every operation leaves of an open review, field by field, and that it leaves other reviews alone. |
| ReviewRaces.SuggestedHasSuggestion | src/modules/google-review/google-review.service.ts:455-693 | In every interleaving of overlapping operations SUGGESTED implies a suggestion. |
| ReviewRaces.AloneIsSequential | src/modules/google-review/google-review.service.ts:455-693 | An operation that nothing overlaps does what the sequential model says. |
| ReviewRaces.ApprovedIsFinalIff | src/modules/google-review/google-review.service.ts:476-693 | An approved review stays approved in every continuation if and only if no suggestion, draft or dismissal that read it earlier is still under way. |
| ReviewRaces.PostedNoMoreIff | src/modules/google-review/google-review.service.ts:602-646 | An approved review is never posted again in any continuation if and only if every operation under way on it is an approval that has already posted. |
| ReviewRaces.PostsAreApproved | src/modules/google-review/google-review.service.ts:602-646 | In no interleaving is a review posted more often than approvals passed their check. |
| ReviewRaces.EveryApprovalMayPost | src/modules/google-review/google-review.service.ts:602-646 | For every m up to n, n overlapping approvals can post a review m times. |
| GoogleReviews.ReviewService.ImportPage | src/modules/google-review/google-review.service.ts:335-365 | One page: the specified table, with every review counted as new or known and the new ones equal to the rows added. |
| GoogleReviews.ReviewService.SyncReviews | src/modules/google-review/google-review.service.ts:327-368 | synced + alreadyKnown = fetched, synced is the number of rows added, and a sync over known reviews gives synced = 0. |
| GoogleReviews.ReviewService.ApproveAndPost | src/modules/google-review/google-review.service.ts:602-661 | Succeeds exactly if the review is known, open, has a draft with text and Google accepts it; otherwise nothing changes. |

## Left out

- FixedWindow.WindowCounter.Enforce: the choice of bucket by feature and trial in `checkRateLimit` and the time in the error message are not modelled; limit and window are parameters.
- FixedWindow.AdmittedPerWindow: calls are counted when their INCR is executed, not when the answer reaches the caller; a key is taken to be gone as soon as its deadline has passed.
- PlanGates.RowCapsNeverConsulted: `PlanGuard` is not attached to any route (src/app.module.ts:119-145), so the gates are modelled as components and not as requests.
- UsageMeter.OvershootBound: `automationExecutionsThisMonth` and voice and WhatsApp counters are not bounded; campaigns of paying tenants are excluded from the bound because they have none (see CampaignsAreUncapped).
- Billing.BillingService.Update: subscription rows, audit rows and provider calls around the update are left out; `handlePlanChange`, which nothing calls, the test checkout and the PayPal and Coinbase webhooks are left out too, and so is the script that writes tenants directly (scripts/grant-premium.ts).
- WebhookRaces.RacesAreHarmlessIff: only deliveries of the one event act in a race; other events, usage and the hourly job do not interleave with it.
- PaystackWebhook.Controller.HandleWebhook: the signature check and the simulation endpoint are not part of this model.
- TokenRefresh.Api.OnRefreshDone: the redirect to the login page is left out; a page that is left settles nothing.
- Failover.FailoverService.TriggerFallbackChannel: message texts, addresses and the look-up of the failed log row are not modelled; the callback names its message.
- ReminderJob.Worker.Process: the unread check worker, the failover that the worker starts itself, message texts and the provider's choice of channel are left out; `reachable` says for which contacts the primary send succeeds.
- ReminderStatus.CancelledIsFinalIff: when the removal of a job from the queue throws is up to the queue and left open; the look-up of a delivered message and the write that follows are one step.
- ReminderJob.AttemptsInvariant: the attempts are the only writers of the status here; cancellations, delivery callbacks and the failed handler are in ReminderStatus, without the recipients.
- ReminderJob.SendLoop: a crash is modelled between any two database or provider operations of the loop, by a budget of operations.
- CampaignAudience.CampaignService.DispatchCampaign: the status updates of the campaign row and the statistics of responses (`buildStatsSummary`, `linkResponseToCampaign`, `parseResponseStatus`) are left out.
- CampaignAudience.OptOutBetweenPagesDropsOne: a contact that is deleted, rather than opted out, between two pages is not modelled, because what the database client does with a cursor to a missing row is not in the repository.
- BookingSlots.BookingService.GetAvailableSlots: working hours are minutes rather than text, and the look-up of the day's appointments is a parameter; appointments of the day before that reach past midnight are not seen, as in the source.
- CheckIn.EventService.InviteAll: the creation of missing customers, the badge image and the invitation messages are left out; contacts that the look-up does not find are skipped.
- CheckIn.EventService.ProcessArrival: the token is taken as trimmed text, and the texts of the answers are left out.
- CheckIn.AdmittedOnce: whether a contact has a phone is fixed, and participants created by forms or audience invitations are the same step as `invite`.
- Workflow.QueueActions: the choice of workflows by trigger is left out; the limit in front of it is `FixedWindow`.
- Workflow.Processor.ProcessJob: what an action does and how one condition is decided are parameters; an attempt that is lost after its increment appears in the run theorems and not in this method.
- Templates.ServiceAgreesIff: values are texts, null or undefined; values with their own text conversion are not modelled, nor is the building of the record (`buildVars`).
- ContactImport.ImportService.BulkInsertContacts: reading the file, finding columns and the error texts are left out; the database's answer to a chunk is a function of the chunk.
- TagSync.ContactsService.SyncTags: trimming and lower-casing are one function parameter; the callers `update` and `bulkTag`, the handler that swallows database errors, and a log write that fails are left out.
- GoogleReviews.ReviewService.SyncReviews: the generation of suggestions after the loop, the plan check and the token refresh are left out; the number of pages is finite.
- GoogleReviews.OpenReviewAfter: posts are counted; which text was posted is the draft at that moment and is not recorded.
- GoogleReviews.PostedOnce: runs are sequential; for operations that overlap see ReviewRaces, which models one review without the sync.
- Logging, audit, Sentry, health endpoints, validation of request bodies, password flows, QR and coupon hashing and the pages of the front end have no part in these properties.
