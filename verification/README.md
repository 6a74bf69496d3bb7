# The push pipeline of ams-push-server, modelled and proved in Dafny

The server pulls messages of a subscription from the Argo Messaging Service (AMS), posts them to the
subscription's endpoint and acknowledges them, once per tick of a retry policy. One goroutine, the push
worker, does this for each active subscription; a registry of workers is changed by gRPC calls, by a start-up
loader, and by a handler that removes subscriptions AMS no longer knows.

`dafny verify dfyconfig.toml` checks the project.

## How the model is laid out

| file | contents |
|---|---|
| `GoTypes.dfy`, `Ams.dfy`, `Wire.dfy` | fixed-width integers, messages and settings, the events a worker exchanges with its surroundings |
| `Base64.dfy` | the decoder that is applied to payloads |
| `RetryPolicies.dfy` | Go timers and the two policies as objects, the policies as values, closed form of slow start |
| `Consumers.dfy`, `Senders.dfy` | what is made of a broker reply, what a request carries, which replies count as success |
| `Protocol.dfy` | the worker as a step relation (`Next`), one step per thing that can happen to it or that it does |
| `Pacing.dfy` | what each step keeps: timer token, retained error and policy, spacing of pushes |
| `Stopping.dfy` | what a cancelled worker can still do |
| `Push.dfy` | the worker object with its loops, proved to perform only steps of `Protocol` |
| `Service.dfy` | the service object: activation, deactivation, handler loop, loader loops |
| `Pipeline.dfy` | the whole service as one machine (`Apply`, `RunSteps`): all workers ever started, registry, loader, handler, and per subscription the broker's log and the endpoint's stream |
| `Registry.dfy`, `Fleet.dfy`, `Delivery.dfy`, `Receipts.dfy`, `Duplicates.dfy`, `Drain.dfy`, `Punctual.dfy` | theorems about all runs of that machine |
| `Cycles.dfy`, `Scenarios.dfy` | particular runs, that show where those theorems end |

Objects are specified by functions on values; the machine uses the same functions, so a theorem about the
machine speaks about what the objects do. `Fleet.RunRunsProtocol` and `Push.Worker.Start` tie the workers of
the machine and the worker object to the same step relation, `Registry.StepServes` does so for the registry.

Assumptions about the surroundings:

- A pull returns a contiguous segment of the subscription's log (of any length), or nothing, or an error. The segment
  begins at an offset that was the committed one at some moment since the pull was asked. An acknowledgement commits
  everything up to its id, once it takes effect. An ack id is modelled by the log offset it stands for.
- Whether the broker honours the maximum it is asked for is left open, and told apart where it matters: with a
  maximum of 1 an HTTP sender loses messages only if a pull of 1 is answered with more.
- A POST or an acknowledgement is a request that takes effect at most once, at any later time or never. The worker
  is told "success" only after the effect, and may be told "error" at any time, so lost responses and late effects
  are covered. Nothing is assumed about calls made on a cancelled context.
- Each operation on the registry is one atomic step. The source takes no lock;
  `Fleet.OverlappingActivations` says what happens without that assumption.
- Timers are those of Go 1.21: a channel of one slot, and `Stop` returns false when the timer has fired.
- Of an error text only its kind is kept, of `pushErr` whether it is set and by which stage, and of an endpoint
  whether `url.ParseRequestURI` accepts it. The wording "no new messages" is the kind `NoNewMessages`, whoever
  wrote it.

Where comments and code disagree the code is followed: `ams.proto` says that `max_messages` defaults to 1, but
0 is passed on and selects the multiple-message format; it also says that only the linear policy is supported.

## Model

| member | source | states |
|---|---|---|
| `Delivery.AtLeastOnce` | push/worker.go:117-237 | In every run of the service, with any number of live or draining workers on a subscription and any outcome of the calls, if the batches that are acknowledged were transmitted whole: every message below the committed offset has arrived, and the stream without repetitions is exactly a prefix of the log in order |
| `Delivery.SafeRunsAreWhole` | senders/httpsender.go:37-47 | When all workers of a subscription have safe settings (HTTP or a maximum of 1 if the broker honours the maximum; HTTP and a maximum other than 1 whatever it does), every run is whole, so the theorem above applies to it |
| `Delivery.ContentOfEveryRun` | push/worker.go:156-195 | Every delivery of every run is the translation of the log message at its offset, under the settings of the worker that sent it |
| `Receipts.SourceOfEveryRun` | consumers/amshttpconsumer.go:66-69 | Every delivery of every run names the subscription it is of and the broker's host |
| `Delivery.AppendBatch` | push/worker.go:156-215 | A batch that starts no later than the frontier turns a gap-free stream into a gap-free one, whatever it repeats |
| `Delivery.StepKeepsDelivery` | push/worker.go:117-237 | The invariant behind it is kept by every step, including requests that take effect after they were given up |
| `Receipts.SuccessfulCycle` | push/worker.go:195-236 | Every successful cycle of every run, whatever failed before it, landed late or ran beside it: its batch is committed, its own request has arrived, and it acknowledged only what that request carried iff the batch has one message or the sender is HTTP and the maximum is not 1 |
| `Cycles.SettingsThatNeverLose` | senders/sender.go:58-69 | For all settings: no run loses an acknowledged message iff they are safe, with a broker that honours the maximum and with one that may not |
| `Cycles.LosingRun` | push/worker.go:195-215 | In each other case, for any settings and any two or more messages, there is a run from start-up that commits all of them though the second never arrived; the broker honours the maximum if so many messages do not exceed it, as with Mattermost and a maximum above 1 |
| `Cycles.CycleRun` | push/worker.go:97-114 | An explicit sequence of steps performs a whole successful cycle, and the exact state it ends in |
| `Cycles.CycleFeed` | push/worker.go:195-215 | Such a cycle commits exactly the batch, and appends to the stream the batch or its first message |
| `Drain.BacklogDrains` | push/worker.go:97-114 | In every run of the service in which from some point on one worker serves a subscription (others it had before have left their loops), nothing is published for it, pulls return what is there up to MaxMessages, and all cycles succeed: k cycles commit exactly k * MaxMessages of the backlog until it is gone, so it is gone iff k is at least N / MaxMessages rounded up; if an acknowledgement given up earlier is still pending, at the latest then |
| `Drain.BusyUntilGone` | push/worker.go:128-136 | In such a run without pending acknowledgements no cycle is idle before the backlog is gone |
| `Drain.CanDrain` | push/worker.go:97-114 | From every state of every run in which a worker with a maximum of at least 1 waits at its select for its timer, and the others of its subscription have left their loops, there is such a run to the end of the backlog, whose pushes start one interval after the other |
| `Punctual.RecoverySchedule` | retrypolicies/slowstart.go:25-54 | In every run, the successful cycles of a slow-start worker recovering from an error start no earlier than 0 s, 1 s, 1.5 s and then every 0.3 s after the first of them; exactly then, if from the first of them on calls take no time and the timer is heeded at once, whatever happened before |
| `Punctual.DrainSchedule` | push/worker.go:97-114 | Both joined: a slow-start worker that begins to drain N messages with a retained error starts the N / MaxMessages pushes that do it on that schedule |
| `Punctual.CanDrainAfterError` | push/worker.go:97-114 | From every state of every run in which such a worker waits there is such a drain on the exact schedule, to the end of the backlog |
| `Duplicates.DuplicateBound` | push/worker.go:195-236 | If one worker served the subscription with pulls of at most m, then in every run deliveries are at most the committed offset, m per cycle that failed after calling the sender, and the batch under way |
| `Duplicates.ExactlyOnce` | push/worker.go:195-236 | Without such a failure, and with whole batches, the stream between cycles is the committed prefix, nothing twice |
| `Duplicates.StepKeepsDuplicates` | push/worker.go:117-237 | The accounting behind the bound is kept by every step of the service |
| `Pacing.StepKeepsInv` | push/worker.go:95-237 | Every step of a worker keeps the timer token, the coupling of retained error and policy, and the spacing of push starts |
| `Fleet.WorkersOfEveryRun` | push/worker.go:97-114 | In every run: at the select exactly one of "armed" and "tick buffered"; a drain finds its tick; only stopped workers have left; `pushErr` is the error of the last decisive cycle; a worker configured as "slowstart" has, outside Reset, the closed form of the retained verdicts as its interval, with a flag that agrees with `pushErr`; one configured as "linear" keeps its period; there is no other kind |
| `Fleet.FirstPush` | retrypolicies/retrypolicy.go:28-50 | In every run the first push of a "slowstart" worker starts no earlier than a second after the worker; a "linear" worker can push at once |
| `Pacing.LoopHeadCoupling` | push/worker.go:112-136 | The same coupling for one worker, where idle and cancelable cycles repeat the verdict before them |
| `Fleet.RateOfEveryRun` | retrypolicies/slowstart.go:5-9 | In every run the push starts of a worker in any window of length t: at most t / 300 ms, rounded up, if it is configured as "slowstart", and with a positive period n of them only if n - 1 periods are less than t |
| `Pacing.WindowHolds` | retrypolicies/slowstart.go:53-54 | The counting argument behind it |
| `Scenarios.StopsInEveryRun` | push/worker.go:97-112 | For all settings and every bound d on the delay between a Reset and the select after it: in every run a stopped worker begins at most one more push iff d is below the shortest interval of its policy; with a linear policy of period 0, which is accepted, no bound suffices |
| `Fleet.StopsSoon` | push/worker.go:97-112 | In any run, a worker stopped at its select begins at most one more push and any other none, when those delays stay below its next interval |
| `Stopping.StopsIff` | push/worker.go:97-112 | For one worker in any state from which it still resets its timer, and its runs from any time on whose clock does not run backwards: all keep within that allowance iff the delays stay below the shortest interval the next Reset can leave |
| `Stopping.AtMostOneMorePush` | push/worker.go:97-112 | One half of it, for any event sequence, and that the worker can leave whenever it is at its select |
| `Scenarios.AnyNumberOfPushes` | push/worker.go:99-110 | For all settings, once delays reach the shortest interval there is a run from start-up in which a stopped worker begins any given number of pushes, as select may prefer the tick |
| `RetryPolicies.SlowstartClosedForm` | retrypolicies/slowstart.go:20-56 | After any history, interval and flag are a function of its tail: halvings from 1 s down to 300 ms, from the start or one success later after an error, then doubled per error up to 24 h |
| `RetryPolicies.CapTime` | retrypolicies/slowstart.go:34-41 | The interval is 24 h exactly from the 17th, 18th or 19th error in a row, by the base 1 s, 500 ms or 300 ms |
| `RetryPolicies.BaseValue` | retrypolicies/slowstart.go:25-32 | No other error-free interval exists |
| `RetryPolicies.BackoffSum` | retrypolicies/slowstart.go:34-41 | n uncapped errors in a row from base b wait b * (2^(n+1) - 2) in all |
| `RetryPolicies.AfterHistoryValid` | retrypolicies/slowstart.go:20-56 | Every history keeps the bounds, and an error never shortens the interval |
| `RetryPolicies.IntervalsFit` | retrypolicies/retrypolicy.go:28-50 | Every interval of every configuration, and its double, fits 64-bit nanoseconds; a linear one is the period converted from milliseconds |
| `RetryPolicies.Slowstart.Reset` | retrypolicies/slowstart.go:20-56 | The object does what the value-level policy says, in 64-bit arithmetic without overflow, and arms the timer with the new interval |
| `RetryPolicies.Linear.Reset` | retrypolicies/linear.go:13-15 | Arms the timer with the period, whatever the error |
| `RetryPolicies.New` | retrypolicies/retrypolicy.go:28-50 | A policy exists for "linear", with its period in milliseconds and a timer that fires at once, and for "slowstart", with an interval of 1 s that is already running; for nothing else |
| `Base64.DecodeQuantaEncode` | push/worker.go:163-177 | Decoding inverts the encoding of section 4 of RFC 4648 on every byte string |
| `Base64.DecodeEncode` | push/worker.go:163-177 | Also when line breaks were put into the encoded text |
| `Base64.FollowsStandard` | push/worker.go:164 | The encoding meant here keeps the 24 bits of a group in order and uses the alphabet of section 4 of RFC 4648 |
| `Base64.DecodesExactly` | push/worker.go:163-174 | Decoding succeeds iff the text without line breaks consists of groups of four letters of the alphabet, with at most two padding characters at the very end, and then gives the bytes whose encoding that text is, up to the bits of the last digit that never count |
| `Protocol.TranslationPreserves` | push/worker.go:160-190 | With decoding on, data that is the encoding of some bytes arrives as those bytes, also when it was broken into lines; other well-formed base64 as the bytes it stands for; data that is not well-formed base64 unchanged; with decoding off all data unchanged; id, attributes and publish time always; and the message names subscription and host |
| `Push.Worker.TranslateBatch` | push/worker.go:156-193 | The loop translates every message of the batch, in order |
| `Protocol.Body` | senders/httpsender.go:37-47 | A request carries at least one message, and only translations of the batch from its start |
| `Protocol.BodyIsWhole` | senders/sender.go:58-69 | How many: all of them, or one, decided by sender and configured maximum |
| `Protocol.PullOutcome` | push/worker.go:119-154 | An empty reply and "no new messages" end the cycle idle and leave `pushErr`; messages are held as they came; "does not exist" waits for the handler with that error; any other error is retained |
| `Protocol.CycleCalls` | push/worker.go:195-215 | A cycle posts iff messages were pulled, and acknowledges, the last of them, iff the POST was answered 200, 201, 204 or 102 (HTTP) or 200 (Mattermost) |
| `Protocol.CycleOutcome` | push/worker.go:117-237 | The verdict of a cycle by its answers alone: success only for such an answer and a confirmed acknowledgement, any other answer or none is a failure to send |
| `Protocol.CycleIsRun` | push/worker.go:117-237 | Any uninterrupted cycle, with any answers and delays, is a run of the step relation ending in its verdict |
| `Push.Worker.SendAndAck` | push/worker.go:195-236 | Sends the translated batch, acknowledges its last message only after success, and leaves `pushErr` accordingly |
| `Push.Worker.PushOnce` | push/worker.go:117-237 | One cycle: the exact events exchanged, and the resulting state, for any answers |
| `Protocol.StopCanWait` | push/worker.go:102-110 | A stop that comes during a push has the same effect as one at its end: until the select nothing depends on it |
| `Push.Worker.PushAndReset` | push/worker.go:100-112 | The tick is taken, a push done, and the timer set from the retained error at the time the push ended |
| `Push.Worker.Leave` | push/worker.go:102-109 | The timer is stopped, or drained without blocking |
| `Push.Worker.Start` | push/worker.go:95-114 | The loop, through any rounds its surroundings drive it, stopping it at its select or during a push, exchanges exactly the events of a run of the step relation and ends in the state of that run |
| `Push.OneRound` | push/worker.go:97-114 | What one round of the loop must do: a push, and exactly one, if the timer is due and the worker is not stopped or select prefers the tick, with the outcome of that round's answers; leaving without a push if it is stopped otherwise; waiting else |
| `Push.PushesWhenDue` | push/worker.go:97-114 | Through any rounds that do not stop it, the worker begins a push in each round in which its timer is due and in no other, and never ends |
| `Push.StartIsRun` | push/worker.go:95-114 | That these events are a run, for every starting state that holds the timer token |
| `Push.New` | push/worker.go:38-61 | A worker exists iff its retry policy does, and starts fresh |
| `Consumers.AmsHttpConsumer.ToCancelableError` | consumers/amshttpconsumer.go:45-64 | Cancelable are exactly the two "does not exist" errors, passed on as they are under the consumer's own subscription name |
| `Consumers.AmsHttpConsumer.Consume` | consumers/amshttpconsumer.go:72-102 | Asks once for its subscription with the given maximum; a list without messages becomes "no new messages", any other list and any error is handed on as it came |
| `Consumers.AmsHttpConsumer.Ack` | consumers/amshttpconsumer.go:105-122 | Acknowledges the given id for its subscription and reports the outcome |
| `Senders.Sender.Carried` | senders/mattermostsender.go:56-64 | A request carries all messages if there is only one or the sender is HTTP with the multiple format, and the first alone otherwise |
| `Senders.Sender.Send` | senders/httpsender.go:32-93 | One request with the carried messages, accepted for 200, 201, 204, 102 (HTTP) or 200 (Mattermost); an empty Mattermost batch is an error without a request |
| `Registry.RegistryHistory` | api/v1/grpc/server.go:129-199 | In every run and for every name, starts and stops strictly alternate beginning with a start, and the name is active iff starts exceed stops by one |
| `Registry.NoOrphans` | api/v1/grpc/server.go:147-191 | Every worker ever started was started once, and is either registered with a live context or was stopped exactly once |
| `Registry.StepKeepsRoster` | api/v1/grpc/server.go:129-199 | The invariant behind both is kept by every step |
| `Registry.StepServes` | api/v1/grpc/server.go:129-191 | Seen as the map of served subscriptions, each step of the machine is the operation of the service object |
| `Registry.StatusGate` | api/v1/grpc/interceptors.go:22-28 | In every run the service is ready iff the user was found, and for good; before that nothing is registered or was started; with the loader skipped that is always so |
| `Registry.GateDecides` | api/v1/grpc/interceptors.go:22-28 | Before the service is ready only the call that asks for its status reaches its handler, and no call changes anything |
| `Fleet.HandlerReleasesAll` | api/v1/grpc/server.go:77-101 | From any state the handler alone releases all senders blocked on the unbuffered channel, in two steps each |
| `Fleet.HandlingIsIsolated` | api/v1/grpc/server.go:179-191 | Handling an error leaves its name inactive and changes no other entry and no worker but that name's live one |
| `Fleet.HandlingTwice` | api/v1/grpc/server.go:179-183 | After it was handled, whatever happens while no worker is started for the name, the name stays inactive and handling it again changes nothing |
| `Fleet.WhomTheHandlerStops` | consumers/amshttpconsumer.go:45-64 | In every run a received error names the worker that raised it, by consumer and by registry key; when the handler acts on it, however much later, it stops that worker iff nobody had stopped it before, and another one iff the raiser was stopped already and its name is active again |
| `Fleet.StaleErrorStopsReplacement` | api/v1/grpc/server.go:80-82 | If a blocked worker's name is deactivated and activated anew first, the handler stops the replacement |
| `Scenarios.StaleErrorRun` | api/v1/grpc/server.go:80-82 | For all settings there is such a run from start-up, and the replacement it stops never began a push |
| `Fleet.OverlappingActivations` | api/v1/grpc/server.go:135-158 | Two activations whose check and insertion overlap leave every running worker stoppable iff their names differ |
| `Fleet.RunRunsProtocol` | push/worker.go:95-237 | In every run of the service each worker performs a run of the step relation |
| `Service.Judge` | api/v1/grpc/server.go:131-155 | A request is accepted iff it is complete, its name is free, and it can be pushed; otherwise the answer names the first of these that fails |
| `Service.LoadAddsFirstLoadable` | api/v1/grpc/server.go:279-364 | The loader keeps what was served, adds exactly the names with a loadable answer, and the first such answer decides |
| `Fleet.LoadedAsStored` | api/v1/grpc/server.go:316-342 | In every run the calls of a worker that the loader started follow what AMS stores: whom it asks and for how many messages, where it posts, whether more than one message, and the policy that paces it |
| `Service.LoadTwice` | api/v1/grpc/server.go:279-364 | A second load with the same answers changes nothing |
| `Registry.MachineLoads` | api/v1/grpc/server.go:246-364 | The start-up loader of the machine, answered name by name, serves exactly what the loops of the service object serve |
| `Service.PushService.ActivateSubscription` | api/v1/grpc/server.go:129-163 | The verdict, the new map of served subscriptions, and a fresh worker under the new name iff accepted |
| `Service.PushService.DeactivateSubscription` | api/v1/grpc/server.go:166-191 | Stops and forgets the named worker, and touches nothing else |
| `Service.PushService.HandleDeactivateChannel` | api/v1/grpc/server.go:77-101 | After any errors exactly the named entries are gone, and exactly their workers are stopped |
| `Service.PushService.AwaitUser` | api/v1/grpc/server.go:248-277 | The retry loop ends with the first answer that is a user, and without one only if all answers were failures; the status is set accordingly |
| `Service.AsksInOrder` | api/v1/grpc/server.go:279-285 | The loader asks for /projects/P/subscriptions/S, project by project in the user's order |
| `Service.PushService.LoadSubscriptions` | api/v1/grpc/server.go:246-365 | The nested loops compute the loader specification over the user's subscriptions, in order, and leave existing workers alone |
| `Fleet.StatusOfEveryRun` | api/v1/grpc/server.go:114-126 | In every run a status is known exactly for the names activated once more than removed, and it reports an error iff the last decisive cycle of the worker started last for that name failed, and which step of that cycle |

## Left out

- HTTP, JSON and URL details, headers, and the text of logs and error messages; of a Mattermost request, which
  carries only the text of the first message, the model records that message.
- The parsing of AMS error bodies: a broker error is one of four kinds.
- gRPC wiring, TLS, access control (`AuthInterceptor`), configuration loading and the health service: no state of the pipeline.
- Push types other than the two of `ams.proto`: `senders.New` would fail and its error is dropped.
- Races on the unlocked registry map and on `status` inside one operation, except for the overlap of two activations.
- Message retention, acknowledgement deadlines and other consumers of a subscription at the broker.
- `Push.Worker.Start` is driven through a finite sequence of rounds, as the endless loop is: every prefix of its behaviour is one.
- `Push.Worker.PushOnTick` records a stop that comes during a push at the end of that push; by `Protocol.StopCanWait`
  the moment makes no difference.
- `Push.Worker.PushOnce` sends the error to the channel in one step; the wait for the handler is a delay there and the
  state `Blocked` in `Protocol`.
- `Service.PushService.ActivateSubscription` creates the worker but does not run it: goroutines run in `Pipeline`.
