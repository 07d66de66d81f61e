# nix-template core, modelled in Dafny

This project models the behavioural core of a small Go/JavaScript
microservice system. The parts modelled are:

- **Chat write path.** The chat domain builds a `Message` aggregate and a
  single `MessagePostedEvent`. The command handler publishes the events to
  Kafka, keyed by event name. The gRPC `SayHello` adapter turns a request
  name into a command.
- **Kafka header carrier.** The producer and the consumer each carry
  trace-context fields through the message headers.
- **Notification service.** A consumer loop reads `chat.message_posted`
  messages and folds the domain event shape and the legacy HTTP shape into
  one `{id, msg, sender, ts}` record. A hub of WebSocket connections
  broadcasts each record and drops a connection whose write fails.
- **Gateway.** A limiter per remote address (`r.RemoteAddr`: host and
  port, not the bare client IP) allows 100 requests per minute. The
  gateway configuration is loaded and validated.
- **Shared configuration package.** An env-file loader that never
  overrides variables already set, and the port/URL/required/one-of
  validators.
- **Chat CORS middleware.**
- **Shell frontend's `RealtimeClient`.** Subscriptions per event type,
  frame dispatch, and the WebSocket URL rewrite.
- **Greeter service.** Domain, use case and configuration.

Every operation is a pure function or a method over immutable values.
I/O outcomes are parameters:

- Kafka writer errors, event-bus results and WebSocket write failures
- the env-file contents, the clock, UUIDs and `url.Parse`

Time is an integer, with 0 standing for Go's zero `time.Time`. JSON is
abstract: a payload either decodes into the consumer's record or is
malformed.

Modules, one per source component:

| module | file | models |
|---|---|---|
| `Results` | results.dfy | `Option`, `Result`, `Outcome` (pass / fail with error) |
| `Text` | text.dfy | Go's `strings.Trim`, `TrimSpace`, `SplitN(…, 2)`, `HasPrefix` and `strconv.Atoi` |
| `Headers` | headers.dfy | the producer and consumer trace-context carriers |
| `Wire` | wire.dfy | the Kafka message and the consumer's event record |
| `ChatQueue` | chat_queue.dfy | `KafkaProducer.Publish` |
| `ChatDomain` | chat_domain.dfy | the `Message` aggregate and its event |
| `ChatApplication` | chat_application.dfy | `PostMessageHandler.Handle` |
| `ChatGrpc` | chat_grpc.dfy | `Server.SayHello` |
| `NotificationHub` | notification_hub.dfy | the connection registry and broadcast |
| `NotificationConsumer` | notification_consumer.dfy | the normalizer and the consumer loop |
| `Pipeline` | pipeline.dfy | properties that span producer, queue and consumer |
| `GatewayRateLimit` | gateway_ratelimit.dfy | the limiter, its cleanup and the middleware |
| `ConfigValidator` | config_validator.dfy | the shared validators |
| `ConfigLoader` | config_loader.dfy | the env-file loader and the env helpers |
| `GatewayConfig` | gateway_config.dfy | gateway `Load` and `Validate` |
| `ChatCors` | chat_cors.dfy | the CORS middleware |
| `ShellRealtime` | shell_realtime.dfy | `RealtimeClient` and the gateway URL |
| `GreeterDomain`, `GreeterApplication`, `GreeterConfig` | greeter_*.dfy | the greeter service |

### Behaviour of the code worth knowing

- **Consumer unquoting.** The consumer carrier removes a pair of `"`
  only from a value longer than two characters that starts and ends with
  `"` (`go/services/notification/backend/cmd/server/main.go:121`). The
  values `""` and `"` therefore come back unchanged, and an empty
  JSON-quoted value does not read as "". Stripping a matching pair
  whenever one is present would be the natural reading of "unquote", but
  the model follows the code (`Headers.Unquote`, `Headers.ShortQuotesKept`).
- **Port syntax.** `ValidatePort` accepts what `strconv.Atoi` accepts.
  That includes a leading `+` and leading zeros (`"+8080"`, `"080"`), not
  only plain decimal. A numeral outside the 64-bit range is reported as
  an invalid port number, not as out of range.

## Model

| member | source | states |
|---|---|---|
| Text.Trim | go/pkg/config/loader.go:96 | the result is the input with a leading and a trailing run of cut-set characters removed, and neither end of the result is in the cut set (a cut set, not one matched pair) |
| Text.TrimOfPadded | go/pkg/config/loader.go:92-96 | trimming a string made of cut-only padding around a middle part that does not start or end with a cut character gives exactly that middle part |
| Text.TrimSpace | go/pkg/config/loader.go:79 | TrimSpace removes exactly the surrounding Unicode white space |
| Text.CutAtFirst | go/pkg/config/loader.go:87-90 | splitting at the first separator yields a part without the separator and the rest (which may contain it); no split exactly when the separator is absent |
| Text.CutAtFirstOf | go/pkg/config/loader.go:87 | a string built as key, separator, rest, with no separator in the key, splits back into that key and that rest |
| Text.Atoi | go/pkg/config/validator.go:19-22 | Atoi succeeds exactly on an optional sign followed by one or more decimal digits whose value fits in 64 bits, and then returns that value |
| Text.AtoiFormatNat | go/pkg/config/validator.go:19 | Atoi reads back every decimal numeral written for a number in the 64-bit range |
| Headers.Unquote | go/services/notification/backend/cmd/server/main.go:120-124 | one leading and one trailing `"` are stripped only from values longer than two characters that start and end with `"`; every other value is returned as is |
| Headers.Set | go/services/chat/backend/internal/infrastructure/queue/kafka.go:30-35 | Set appends exactly one header at the end and leaves the earlier headers unchanged |
| Headers.Keys | go/services/chat/backend/internal/infrastructure/queue/kafka.go:37-43 | Keys lists every header key in order, duplicates included, one per header |
| Headers.ProducerGet | go/services/chat/backend/internal/infrastructure/queue/kafka.go:21-28 | no header with the key gives ""; a non-empty value is the value of a header with that key (partner: GetFindsFirstMatch) |
| Headers.ConsumerGet | go/services/notification/backend/cmd/server/main.go:117-128 | the consumer's Get is the producer's Get unquoted |
| Headers.GetFindsFirstMatch | go/services/notification/backend/cmd/server/main.go:117-128 | both carriers' Get return the value of the first header with the key; the producer returns it verbatim and the consumer unquotes it |
| Headers.GetMissingKey | go/services/chat/backend/internal/infrastructure/queue/kafka.go:21-28 | with no header for the key, both Get return "" |
| Headers.SetThenGet | go/services/chat/backend/internal/infrastructure/queue/kafka.go:21-35 | on headers without the key, Get after Set returns the value set |
| Headers.SetIsShadowed | go/services/chat/backend/internal/infrastructure/queue/kafka.go:22-34 | setting a key that is already present changes neither carrier's Get for it, because the first match wins |
| Headers.SetKeepsOtherKeys | go/services/chat/backend/internal/infrastructure/queue/kafka.go:21-35 | Set of one key leaves Get of every other key unchanged |
| Headers.KeysAfterSet | go/services/chat/backend/internal/infrastructure/queue/kafka.go:30-43 | Keys after Set are the earlier keys followed by the new key |
| Headers.ProducerToConsumer | go/services/notification/backend/cmd/server/main.go:117-135 | a value the producer set reaches the consumer's Get unchanged exactly when it is not a quoted value longer than two characters; otherwise it arrives with its outer quotes removed |
| Headers.ShortQuotesKept | go/services/notification/backend/cmd/server/main.go:121-124 | the values `""` and `"` pass unchanged, while `"a"` becomes `a` |
| Wire.Decode | go/services/notification/backend/cmd/server/main.go:221-222 | decoding fails exactly on a malformed payload, and a well-formed payload yields exactly its fields (absent ones at their zero values) |
| ChatQueue.Inject | go/services/chat/backend/internal/infrastructure/queue/kafka.go:89-90 | injecting trace fields appends them, in order, after the existing headers |
| ChatQueue.Publish | go/services/chat/backend/internal/infrastructure/queue/kafka.go:71-100 | the message carries the key and payload given and the injected trace fields; Publish fails exactly when the writer does, with the writer's error unchanged |
| ChatDomain.Apply | go/services/chat/backend/internal/domain/greeter.go:72-81 | Apply overwrites all four fields from the event and increments the version by exactly one |
| ChatDomain.ReplayHistory | go/services/chat/backend/internal/domain/greeter.go:70-81 | replaying a history raises the version by its length, and the fields come from the last event |
| ChatDomain.NewMessage | go/services/chat/backend/internal/domain/greeter.go:45-68 | empty content fails first, then an empty author; on success there is exactly one event with the generated id, content, author and time, and the message holds the event's fields at version 1 |
| ChatDomain.EventName | go/services/chat/backend/internal/domain/greeter.go:39-41 | every message event is named "chat.message_posted" (partner: Pipeline.DomainEventKeyIsRecognized) |
| ChatDomain.ID | go/services/chat/backend/internal/domain/greeter.go:85-87 | the ID getter (partner: GettersReadBack) |
| ChatDomain.ContentOf | go/services/chat/backend/internal/domain/greeter.go:89-91 | the Content getter (partner: GettersReadBack) |
| ChatDomain.GettersReadBack | go/services/chat/backend/internal/domain/greeter.go:45-91 | the getters of a new message return the generated id and the content it was created with |
| ChatDomain.NewMessageIsReplay | go/services/chat/backend/internal/domain/greeter.go:63-67 | the new message equals the blank aggregate with its events applied, as a rehydration would rebuild it |
| ChatApplication.Marshal | go/services/chat/backend/internal/application/greet_user.go:48 | an encoded domain event carries its id, content, author and timestamp in the canonical fields; the legacy fields read as zero |
| ChatApplication.Plan | go/services/chat/backend/internal/application/greet_user.go:47-57 | one publication per event, in order, keyed by the event's name |
| ChatApplication.FirstFailure | go/services/chat/backend/internal/application/greet_user.go:54-56 | the index of the first failing publish call, none exactly when all calls succeed |
| ChatApplication.Handle | go/services/chat/backend/internal/application/greet_user.go:38-60 | a domain error returns with nothing published; otherwise the events are published in order and the loop stops at the first bus failure, whose error is returned; full success returns "Message processed async" |
| ChatGrpc.SayHello | go/services/chat/backend/internal/infrastructure/grpc/handler.go:35-57 | an empty name is InvalidArgument with nothing published; otherwise one event with author "grpc-user" and the name as content is published; a handler error becomes Internal, and success replies with the handler's string |
| NotificationHub.AddClient | go/services/notification/backend/cmd/server/main.go:50-55 | the connection is a member afterwards, no other membership changes, and adding a member changes nothing |
| NotificationHub.RemoveClient | go/services/notification/backend/cmd/server/main.go:57-67 | the connection is absent afterwards, no other membership changes, and it is closed exactly when it was present |
| NotificationHub.Deliver | go/services/notification/backend/cmd/server/main.go:81-87 | after the write loop, exactly the registered connections of the snapshot whose write failed are removed and closed, each once |
| NotificationHub.Broadcast | go/services/notification/backend/cmd/server/main.go:69-88 | every registered connection is written the payload exactly once; afterwards the registry is the snapshot minus the failed connections, and exactly those are closed, each once |
| NotificationHub.Send | go/services/notification/backend/cmd/server/main.go:90-96 | Send broadcasts the request payload to every client and always replies success |
| NotificationHub.StepKeepsInvariant | go/services/notification/backend/cmd/server/main.go:50-88 | connect, disconnect and broadcast keep the invariant: no connection is closed twice and no closed connection stays registered |
| NotificationHub.CloseAtMostOnce | go/services/notification/backend/cmd/server/main.go:57-67 | over any history of fresh connections, each connection is closed at most once |
| NotificationHub.FailedWriteLeavesRegistry | go/services/notification/backend/cmd/server/main.go:81-86 | a connection whose write failed during a broadcast is no longer registered |
| NotificationConsumer.Normalize | go/services/notification/backend/cmd/server/main.go:226-248 | every record gets a non-empty id; sender and msg are empty exactly when both of their candidate fields are (partner: NormalizeResolution) |
| NotificationConsumer.NormalizeResolution | go/services/notification/backend/cmd/server/main.go:226-248 | sender is the author id if set, otherwise the legacy sender; msg is content, otherwise text; ts is timestamp unless zero, otherwise ts; id is the message id, otherwise "gen-" followed by the resolved sender |
| NotificationConsumer.NormalizeCanonical | go/services/notification/backend/cmd/server/main.go:226-241 | a fully canonical event is normalized from its canonical fields, whatever its legacy fields hold |
| NotificationConsumer.NormalizeLegacy | go/services/notification/backend/cmd/server/main.go:226-241 | an event carrying only legacy fields is normalized from them, with id "gen-" plus the sender |
| NotificationConsumer.StepOf | go/services/notification/backend/cmd/server/main.go:188-255 | a read error stops the loop exactly when the context is cancelled and retries otherwise; another key is ignored; a malformed payload is a decode failure; everything else broadcasts the normalized record |
| NotificationConsumer.Consume | go/services/notification/backend/cmd/server/main.go:183-259 | the loop broadcasts at most one record per read (partners: ConsumeAppend, BroadcastsComeFromRecognizedMessages) |
| NotificationConsumer.ConsumeAppend | go/services/notification/backend/cmd/server/main.go:185-258 | the broadcasts of two runs of reads concatenate when the first run never stops the loop |
| NotificationConsumer.TransientErrorIsTransparent | go/services/notification/backend/cmd/server/main.go:188-196 | a read error without cancellation changes nothing that is broadcast |
| NotificationConsumer.OtherKeyIsSkipped | go/services/notification/backend/cmd/server/main.go:253-255 | a message with any other key changes nothing that is broadcast |
| NotificationConsumer.CancellationStops | go/services/notification/backend/cmd/server/main.go:189-193 | a read error after cancellation ends the loop, so no later read is broadcast |
| NotificationConsumer.BroadcastsComeFromRecognizedMessages | go/services/notification/backend/cmd/server/main.go:220-251 | every broadcast record is the normalization of a read message keyed "chat.message_posted" that decoded |
| Pipeline.DomainEventKeyIsRecognized | go/services/chat/backend/internal/domain/greeter.go:39-41 | the domain event's name is exactly the key the consumer processes, so domain events are never ignored |
| Pipeline.PostedMessageIsDelivered | go/services/notification/backend/cmd/server/main.go:220-251 | a message posted through the domain reaches the consumer as a record with the domain's id, content, author and time |
| Pipeline.HttpEventPayload | go/services/chat/backend/internal/infrastructure/http/handler.go:158-162 | the legacy HTTP event: text, sender "http_user" and ts only (partner: HttpMessageIsDelivered) |
| Pipeline.HttpMessageIsDelivered | go/services/chat/backend/internal/infrastructure/http/handler.go:158-164 | a legacy HTTP message reaches the consumer as a record with sender "http_user", its text, its time and id "gen-http_user" |
| Pipeline.TraceHeaderCrossesQueue | go/services/chat/backend/internal/infrastructure/queue/kafka.go:82-92 | a trace field injected once by the producer is read back by the consumer carrier from the written message |
| GatewayRateLimit.Allow | go/services/gateway/backend/internal/middleware/ratelimit.go:39-63 | an unseen remote address (host and port) is allowed with count 1 at now; after more than a minute the count resets to 1 at now; within the minute, a count at 100 is denied with the entry unchanged, otherwise the count rises by one and lastSeen is kept; no other entry changes |
| GatewayRateLimit.AllowKeepsCountsInRange | go/services/gateway/backend/internal/middleware/ratelimit.go:43-62 | every count stays within 1..100 |
| GatewayRateLimit.Cleanup | go/services/gateway/backend/internal/middleware/ratelimit.go:70-74 | cleanup removes exactly the entries idle for more than three minutes and leaves the rest untouched |
| GatewayRateLimit.CleanupKeepsCountsInRange | go/services/gateway/backend/internal/middleware/ratelimit.go:70-74 | cleanup keeps every count within 1..100 |
| GatewayRateLimit.Serve | go/services/gateway/backend/internal/middleware/ratelimit.go:27-36 | a denied request gets status 429 with the http.Error message "Rate limit exceeded" and the next handler is not called; an allowed one is passed on |
| GatewayRateLimit.WindowAdmitsAtMostLimit | go/services/gateway/backend/internal/middleware/ratelimit.go:49-62 | from a new remote address (host and port), n requests within one minute of the first admit exactly min(n, 100), and the window stays anchored at the first request |
| ConfigValidator.ValidatePort | go/pkg/config/validator.go:18-29 | a port passes exactly when Atoi reads an integer in 1..65535; a non-number and a numeral outside the 64-bit range fail as invalid port numbers, and any other out-of-range number fails with its value |
| ConfigValidator.ValidatePortAcceptsDecimal | go/pkg/config/validator.go:18-29 | every decimal numeral for 1..65535 passes |
| ConfigValidator.ValidatePortAcceptsPlusSign | go/pkg/config/validator.go:19 | "+8080" passes, since Atoi accepts a sign |
| ConfigValidator.ValidatePortAcceptsLeadingZero | go/pkg/config/validator.go:19 | "080" passes, since Atoi accepts leading zeros |
| ConfigValidator.ValidatePortRejectsNonNumbers | go/pkg/config/validator.go:19-22 | "" and "-" fail as invalid port numbers |
| ConfigValidator.ValidatePortRejectsOutOfRange | go/pkg/config/validator.go:24-26 | "0" and "65536" fail as out of range, with their values |
| ConfigValidator.ValidateURL | go/pkg/config/validator.go:32-51 | "" fails before parsing; the URL passes exactly when it parses with a non-empty scheme and a non-empty host |
| ConfigValidator.EmptyUrlNotParsed | go/pkg/config/validator.go:33-35 | the empty URL fails the same way whatever the parser would say |
| ConfigValidator.ValidateRequired | go/pkg/config/validator.go:54-59 | fails exactly on "", naming the field |
| ConfigValidator.OneOfFrom | go/pkg/config/validator.go:63-67 | the scan finds the value exactly when some remaining entry equals it |
| ConfigValidator.ValidateOneOf | go/pkg/config/validator.go:62-69 | passes exactly when the value is among the allowed ones, so an empty list always fails |
| ConfigLoader.NewLoader | go/pkg/config/loader.go:17-23 | the environment name is APP_ENV, or "dev" when that is empty |
| ConfigLoader.ParseLine | go/pkg/config/loader.go:79-96 | a line blank after trimming or starting with `#` is skipped; any other line without `=` is malformed and carries its trimmed text; a key never contains `=` |
| ConfigLoader.ParseLineIgnoresSurroundingSpace | go/pkg/config/loader.go:79 | a line reads the same as its TrimSpace: white space around it never matters |
| ConfigLoader.ParseLineReadsEntry | go/pkg/config/loader.go:79-96 | a line `KEY=` followed by quotes, a value and quotes reads back that key and that value, even when the value contains `=` |
| ConfigLoader.ApplyLine | go/pkg/config/loader.go:77-105 | a skipped line changes nothing; a malformed line is an error with its line number; an assignment sets the variable only when it reads as "", and a rejected Setenv is an error |
| ConfigLoader.ParseAll | go/pkg/config/loader.go:77-79 | each physical line is parsed on its own, in order |
| ConfigLoader.LoadNeverOverrides | go/pkg/config/loader.go:98-104 | a variable already non-empty is never overwritten by the file |
| ConfigLoader.InvalidFormatNamesLine | go/pkg/config/loader.go:75-90 | an invalid-format error names the 1-based physical line, skipped lines counted, of the first malformed line, with its trimmed text |
| ConfigLoader.ChangedValuesComeFromFile | go/pkg/config/loader.go:98-104 | every value the load changed was "" before and comes from an assignment in the file |
| ConfigLoader.Load | go/pkg/config/loader.go:51-113 | a missing project root or file is no error; a file that cannot be opened is; the lines are applied in order and the scan's error (InvalidFormat or SetenvFailed) is returned; after a scan without error, a scanner error is returned as ReadFailed and nothing else is; existing values are never overridden |
| ConfigLoader.ApplyLines | go/pkg/config/loader.go:77-105 | the scan loop: without an error no line was malformed; a file whose lines all parse and are accepted by Setenv never fails; every scan error is InvalidFormat or SetenvFailed |
| ConfigLoader.ApplyLinesSplit | go/pkg/config/loader.go:77-105 | after a prefix applied without error, the scan carries on with the remaining lines from the environment the prefix left |
| ConfigLoader.MalformedLineStopsLoad | go/pkg/config/loader.go:86-90 | a malformed line reached without an earlier error stops the scan with InvalidFormat naming its 1-based line number and trimmed text |
| ConfigLoader.RejectedSetenvStopsLoad | go/pkg/config/loader.go:100-103 | an assignment to an unset variable that Setenv rejects, reached without an earlier error, stops the scan with SetenvFailed for its key |
| ConfigLoader.FirstMalformedAfterAcceptable | go/pkg/config/loader.go:77-90 | a malformed line preceded only by lines that cannot fail is reported with its line number |
| ConfigLoader.LoadReportsMalformedLine | go/pkg/config/loader.go:77-90 | Load reports the env file's first malformed line, by physical line number and trimmed text, when every earlier line cannot fail |
| ConfigLoader.WellFormedFileLoads | go/pkg/config/loader.go:77-109 | a file whose lines all parse and are accepted loads with an error exactly when the scanner reports one |
| ConfigLoader.Getenv | go/pkg/config/loader.go:100 | os.Getenv: an unset variable, and the empty key always, read as "" (partner: LoadNeverOverrides) |
| ConfigLoader.EmptyKeyIsRejected | go/pkg/config/loader.go:100-103 | a line assigning to the empty key always fails with SetenvFailed, whatever the map holds under "", because os.Getenv("") reads "" and os.Setenv("") is refused |
| ConfigLoader.GetEnv | go/pkg/config/loader.go:116-121 | the value when non-empty, else the fallback |
| ConfigLoader.MustGetEnv | go/pkg/config/loader.go:124-130 | panics exactly when the value is empty, otherwise returns it |
| ConfigLoader.GetEnvBool | go/pkg/config/loader.go:133-139 | empty gives the fallback; otherwise true exactly for "true", "1" and "yes" |
| ConfigLoader.GetEnvBoolIsCaseSensitive | go/pkg/config/loader.go:138 | "TRUE", "True", "t" and "on" read as false |
| GatewayConfig.Validate | go/services/gateway/backend/internal/config/config.go:65-87 | checks run as port, URL, level, format; the first failure is returned; port and URL errors are wrapped with their context |
| GatewayConfig.ValidateIsConjunction | go/services/gateway/backend/internal/config/config.go:65-87 | validation passes exactly when all four checks pass: level in {debug, info, warn, error}, format in {text, json} |
| GatewayConfig.FromEnv | go/services/gateway/backend/internal/config/config.go:40-55 | each field is its variable or its default ("8080", "http://localhost:8081", "info", "text"); both timeouts are 30 |
| GatewayConfig.Load | go/services/gateway/backend/internal/config/config.go:33-63 | a loader error is returned; otherwise the configuration read after loading is returned exactly when it validates, and a validation failure is returned as such |
| GatewayConfig.DefaultPortIsValid | go/services/gateway/backend/internal/config/config.go:42 | the default port "8080" passes the port check |
| GatewayConfig.DefaultsWithEmptyEnvironment | go/services/gateway/backend/internal/config/config.go:40-62 | with nothing set and no env file, Load returns the defaults |
| GatewayConfig.ProcessEnvironmentWins | go/services/gateway/backend/internal/config/config.go:35-42 | a port already set in the process environment is the port loaded, whatever the env file says |
| ChatCors.DistinctWireNames | go/services/chat/backend/internal/middleware/cors.go:12-28 | distinct keys of a header map are distinct header names, so Set on one of the five replaces its only entry |
| ChatCors.SetCorsHeaders | go/services/chat/backend/internal/middleware/cors.go:12-28 | the five CORS headers are set to one value each, and other headers are untouched |
| ChatCors.Cors | go/services/chat/backend/internal/middleware/cors.go:8-38 | a non-empty Origin is echoed, otherwise "*"; methods, allowed and exposed headers and credentials "true" are set on every request; OPTIONS is answered with 200 without calling next, and any other method calls next once |
| ChatCors.SplitJoinList | go/services/chat/backend/internal/middleware/cors.go:23 | a header list written with ", " between entries reads back as those entries |
| ChatCors.AllowedHeadersRead | go/services/chat/backend/internal/middleware/cors.go:23 | the Allow-Headers value reads as Content-Type, Authorization, X-Requested-With, traceparent, tracestate, baggage, x-request-id |
| ChatCors.ExposedHeadersRead | go/services/chat/backend/internal/middleware/cors.go:26 | the Expose-Headers value reads as traceparent, tracestate |
| ChatCors.TraceContextMaySend | go/services/chat/backend/internal/middleware/cors.go:21-23 | traceparent, tracestate and baggage are allowed request headers |
| ChatCors.TraceContextMayRead | go/services/chat/backend/internal/middleware/cors.go:25-26 | traceparent and tracestate are exposed response headers |
| ChatCors.PreflightStopsHere | go/services/chat/backend/internal/middleware/cors.go:30-36 | a preflight gets 200 and stops here; another method is passed on; both get the same headers |
| ShellRealtime.NewClient | go/services/shell/frontend/src/main.js:12-19 | a new client has no subscribers and is not connected |
| ShellRealtime.Subscribe | go/services/shell/frontend/src/main.js:53-58 | the callback is appended to its type's list, which is created if missing; duplicates are kept; other types are untouched |
| ShellRealtime.Without | go/services/shell/frontend/src/main.js:62 | the filter removes every occurrence of the callback and keeps every other callback as often as it was there |
| ShellRealtime.WithoutKeepsOrder | go/services/shell/frontend/src/main.js:62 | the filter keeps the other callbacks in order |
| ShellRealtime.WithoutAbsent | go/services/shell/frontend/src/main.js:62 | filtering a callback that is not registered leaves the list as it was |
| ShellRealtime.Unsubscribe | go/services/shell/frontend/src/main.js:60-64 | an unknown type is a no-op that creates no entry; otherwise only that type's list is filtered |
| ShellRealtime.CallEach | go/services/shell/frontend/src/main.js:68 | forEach calls the callbacks in order with the payload until one throws: the calls are a prefix of the list, every call but the last returned, and the dispatch throws exactly when some callback in the list throws, in which case the last call threw; without a throw every callback is called |
| ShellRealtime.CallEachAppend | go/services/shell/frontend/src/main.js:68 | callbacks at the end of the list are reached only when none of the earlier ones throws |
| ShellRealtime.Notify | go/services/shell/frontend/src/main.js:66-70 | the type's callbacks are called with the payload in registration order, up to and including the first that throws, after which the rest are skipped; an unknown type calls nothing |
| ShellRealtime.SubscribeThenNotify | go/services/shell/frontend/src/main.js:53-70 | a new subscriber is called after those already registered, unless one of them throws first |
| ShellRealtime.SubscribeOtherType | go/services/shell/frontend/src/main.js:53-58 | subscribing to one type changes no other type's calls |
| ShellRealtime.UnsubscribeThenNotify | go/services/shell/frontend/src/main.js:60-70 | after unsubscribing, the callback is never called for that type |
| ShellRealtime.SubscribeUnsubscribe | go/services/shell/frontend/src/main.js:53-64 | subscribing a new callback and unsubscribing it again restores every notification |
| ShellRealtime.OnMessage | go/services/shell/frontend/src/main.js:31-40 | a frame dispatches exactly when it parses and has a truthy string type, and then to that type's subscribers with its payload; an unparseable frame, a null frame and a throwing subscriber are caught and logged, a throwing subscriber also skipping the rest; other primitives and non-string types are dropped silently |
| ShellRealtime.OnOpen | go/services/shell/frontend/src/main.js:25-29 | opening sets connected and notifies the 'system:connected' subscribers with status ok; an exception from one of them escapes the handler, skips the rest and leaves the client connected |
| ShellRealtime.OnClose | go/services/shell/frontend/src/main.js:42-46 | closing clears connected, keeps the subscriptions and schedules a reconnect after 3000 ms |
| ShellRealtime.ReconnectKeepsSubscribers | go/services/shell/frontend/src/main.js:42-46 | subscribers from before a disconnect are notified again on the next open |
| ShellRealtime.GatewayUrl | go/services/shell/frontend/src/main.js:74 | an unset or empty VITE_GATEWAY_URL falls back to http://localhost:8080 |
| ShellRealtime.WebSocketUrl | go/services/shell/frontend/src/main.js:75 | a leading "http" becomes "ws", once; any other string is unchanged |
| ShellRealtime.SchemeMapping | go/services/shell/frontend/src/main.js:75 | https becomes wss and http becomes ws, with the rest kept |
| ShellRealtime.WebSocketUrlIdempotent | go/services/shell/frontend/src/main.js:75 | rewriting a rewritten URL changes nothing |
| ShellRealtime.Endpoint | go/services/shell/frontend/src/main.js:74-81 | the rewritten gateway URL followed by "/ws" (partner: DefaultEndpoint) |
| ShellRealtime.DefaultEndpoint | go/services/shell/frontend/src/main.js:74-81 | with nothing configured, the client connects to ws://localhost:8080/ws |
| GreeterDomain.NewGreeter | go/services/greeter/backend/internal/domain/greeter.go:10-15 | an empty name gives ErrEmptyName and no greeter; any other name gives a greeter with that name |
| GreeterDomain.Name | go/services/greeter/backend/internal/domain/greeter.go:21-23 | the Name getter (partner: NewGreeterGreetsName) |
| GreeterDomain.GenerateGreeting | go/services/greeter/backend/internal/domain/greeter.go:17-19 | the greeting is as long as prefix, name and suffix together; GreetingNamesGreeter reads the name back out of it |
| GreeterDomain.NameInGreeting | go/services/greeter/backend/internal/domain/greeter.go:17-19 | a greeting read back is "Hello " + name + " from Greeter Domain!" for the name it returns |
| GreeterDomain.GreetingNamesGreeter | go/services/greeter/backend/internal/domain/greeter.go:17-23 | the greeting reads back as the greeter's Name, so the name is in it and is unchanged |
| GreeterDomain.NewGreeterGreetsName | go/services/greeter/backend/internal/domain/greeter.go:10-23 | a greeter made from a non-empty name greets exactly that name |
| GreeterApplication.GreetUser | go/services/greeter/backend/internal/application/greet_user.go:17-26 | "" gives an empty message and ErrEmptyName; any other name gives that name's greeting and no error; the message is non-empty exactly when there is no error |
| GreeterApplication.GreetUserText | go/services/greeter/backend/internal/application/greet_user.go:25 | on success the message is exactly "Hello " + name + " from Greeter Domain!" |
| GreeterConfig.Load | go/services/greeter/backend/internal/config/config.go:11-17 | HTTP_PORT defaults to "8081" and GRPC_PORT to "50051" when empty or unset; a set value is used verbatim; the static directory is SERVER_STATIC_DIR as is, possibly "" |
| GreeterConfig.DefaultsWithEmptyEnvironment | go/services/greeter/backend/internal/config/config.go:11-17 | with nothing set the configuration is ("8081", "50051", "") |
| GreeterConfig.PortsNeverEmpty | go/services/greeter/backend/internal/config/config.go:19-24 | the ports are never empty, whatever the environment holds |

## Left out

- ShellRealtime.OnMessage: subscription keys are strings. The source's
  `Map` accepts any value as a key and `subscribe` does not check it, so a
  caller that subscribed under a non-string (say the number 1) would be
  notified by a frame whose `type` is that same value; the model never
  dispatches a non-string type.
- GatewayRateLimit.Serve: the limiter key is `r.RemoteAddr`, host plus
  port, not the client IP; the model keys by that string as given.
- **Character encoding.** Strings are sequences of Unicode scalar values,
  while Go strings are bytes: `TrimSpace` decodes UTF-8 and `Atoi` reads
  bytes, and a value holding invalid UTF-8 cannot be represented here.
- ChatCors.Cors: header names are taken as already in canonical form; Go's case canonicalisation of names is not modelled.

- **Concurrency.** The model leaves out mutexes, goroutines, the sleeping
  cleanup loop and broadcasting outside the lock. Each operation is atomic
  and sequential.
- **Network and transport.** Left out: the kafka-go reader and writer,
  the WebSocket upgrade and read loop, the gRPC and HTTP servers,
  listeners, signal handling and shutdown. Their outcomes are parameters.
- **Trace propagation.** The OpenTelemetry SDK set-up, spans, logging and
  the browser tracing code are left out. The trace-context propagator's
  own format (the traceparent/tracestate encoding of the W3C Trace
  Context recommendation) is left out too: only the carriers are
  modelled, and the injected fields are a parameter of `ChatQueue.Publish`.
- **Encoding.** `encoding/json` is abstract. A payload either decodes into
  the consumer's record or is malformed. A field absent from the JSON
  reads as "" or the zero time. The JSON text of the WebSocket record is
  not modelled.
- **Foreign values.** `time.Now`, `uuid.New` and `url.Parse` are
  parameters. Time is an integer.
- **Kafka offsets and timestamps.** The message offset and its `Time`
  field are not modelled. They appear only in logs and spans.
- **Project root and env file.** Finding the project root and opening and
  scanning the env file are one parameter. It says whether the root or
  file is missing, whether opening fails, and otherwise gives the lines
  and whether the scanner reported an error.
- ChatApplication.Handle: the `json.Marshal` failure branch is not
  modelled, because encoding the domain event (strings and a time) cannot
  fail.
- NotificationHub.Broadcast: the snapshot order is an arbitrary order of
  the registry, as Go's map iteration is, rather than a particular one.
- **Static files and proxying.** Static-file serving, `resolveStaticDir`,
  the gateway proxy router and its HTML page are not part of this model.
- **Other handlers and services.** The landing service, the greeter's HTTP
  and gRPC handlers, and the chat HTTP handler are left out. The chat HTTP
  handler is used only for the shape of the legacy event it publishes
  (`Pipeline.HttpEventPayload`).
- **Frontend lifecycle.** The `RealtimeClient` socket's `onerror` only
  logs, so it is left out. The reconnect timer is represented only by its
  delay. The socket is assumed to open after each `connect`.
- **Domain error text.** The domain error types `ErrEmptyName` and the chat
  domain errors are modelled as constructors. The file that declares
  `ErrEmptyName` is not part of this model. Error message wording is not
  modelled, apart from the gRPC InvalidArgument message and the message the rate
  limiter passes to `http.Error`. The body it writes, that message plus
  a newline, is not modelled.
- ChatCors.Cors: the header values are stated as lists of entries joined
  with ", ". The model does not prove that they match the source's string
  literals character by character.
