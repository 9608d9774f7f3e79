# Service-to-signal horn blueprint, modelled in Dafny

This project models the core of the service-to-signal blueprint. In that system:

- a uProtocol **horn service** receives activate and deactivate RPCs and queues them as
  commands on a bounded channel;
- a single **sequencer** turns each command into horn signals (`true`/`false`), and a newer
  command cuts short the playback in flight;
- a **vehicle gateway** re-addresses messages between the cloud and the vehicle;
- two **signal sinks** act on the signals: the Rust **software horn** and the ESP32
  **actuator provider** firmware, written in C.

Modules, one per source component:

| module | file | models |
|---|---|---|
| `Common` | common.dfy | option/result types, bytes, the protocol texts `targetValue`, `currentValue`, `true`, `false` |
| `HornProto` | horn_proto.dfy | the horn service's protobuf messages, as plain values |
| `Channel` | channel.dfy | a bounded tokio mpsc channel, as a class with ghost logs of what was sent and received |
| `RequestProcessor` | request_processor.dfy | command plans, the sequencer class, `receive_requests` and the preemption trace |
| `RequestHandler` | request_handler.dfy | the activate and deactivate RPC handlers and the command channel's capacity |
| `Gateway` | gateway.dfy | `GatewayForwarder::on_receive`, with panics as error results |
| `Utf8` | utf8.dfy | well-formed UTF-8 (RFC 3629, section 4), the test `try_to_string` applies |
| `SoftwareHorn` | software_horn.dfy | the software horn's receive loop and its publisher |
| `ActuatorProvider` | actuator_provider.dfy | `attachment_handler`, `is_valid_tcp_url`, `payload_to_string`, `sample_handler`, `pub_status`, `turn_led`, `event_handler` |
| `SignalSinks` | signal_sinks.dfy | the two sinks compared on the same signal |

How the sequencer is modelled:

- Each command has a **plan**, a sequence of await points. `Emit(b)` sends `b` on the signal
  channel and `Wait(ms)` sleeps.
- `select!` races the next receive against the plan in flight. The model makes that race a
  parameter: `runs[i]` is how many await points command `i` completed before the next
  receive won.
- The signal trace is therefore the concatenation, in FIFO order, of one plan prefix per
  command (`Trace`).
- The class `Sequencer` holds the one plan in flight, its position and the signals sent so
  far. `ReceiveRequests` is proved to produce exactly `Trace`.

How the C firmware is modelled:

- Memory is bytes, and a C string is the bytes before the first NUL (`CStr`).
- Writes past a buffer are reported as `Err(BufferOverflow)` rather than followed.
- GPIO writes and publications are recorded as effects, in order.
- Heap buffers are counted (`liveBuffers`).

Two behaviours of the code that a reader might not expect:

- A request whose mode is unknown, unspecified or not a valid enum number is not rejected
  before it is queued. The handler enqueues it, and the sequencer only logs it. It sends
  nothing, but it still cuts short the command in flight (`SilentCommandPreempts`).
- A one-cycle sequence followed by a deactivation does not always send exactly one `true`
  and one `false`:
  - the deactivation can win before the cycle's `true`, giving `false` alone;
  - it can win after the cycle's own `false`, giving `true, false, false`.

  `SequenceThenCancel` proves all three outcomes.

## Model

| member | source | states |
|---|---|---|
| Channel.Channel.constructor | components/horn-service-kuksa/src/main.rs:52 | a new channel of capacity `capacity > 0` is empty, open at both ends, and has sent and received nothing |
| Channel.Channel.Send | components/horn-service-kuksa/src/request_handler.rs:49 | a send fails once the receiver is gone, stays pending on a full buffer, and otherwise appends the value at the back; the FIFO invariant `sent == received + buffer` is kept |
| Channel.Channel.Recv | components/horn-service-kuksa/src/request_processor.rs:24-28 | a receive hands out the oldest value and logs it as received; on an empty buffer it is pending while senders exist and reports the channel closed once none is left |
| Channel.Channel.DropReceiver | components/horn-service-kuksa/src/request_processor.rs:20-33 | when the receiving task returns, the receiver is gone and the FIFO invariant still holds |
| Channel.Channel.DropSenders | components/horn-service-kuksa/src/main.rs:52-68 | if every sender the service created were dropped, the senders would be gone and the FIFO invariant would still hold |
| RequestProcessor.EmitsPrefix | components/horn-service-kuksa/src/request_processor.rs:26-31 | a plan cut after k await points sends a prefix of what the whole plan sends, and the rest sends the remainder |
| RequestProcessor.AlternatingAt | components/horn-service-kuksa/src/request_processor.rs:72-82 | n cycles' worth of signals has length 2n, with `true` at every even position and `false` at every odd one |
| RequestProcessor.CycleSignals | components/horn-service-kuksa/src/request_processor.rs:76-79 | one cycle sends `true` then `false` |
| RequestProcessor.CycleWaitTime | components/horn-service-kuksa/src/request_processor.rs:77-79 | one cycle sleeps its on-time plus its off-time |
| RequestProcessor.CyclesPlanShape | components/horn-service-kuksa/src/request_processor.rs:74-80 | a run of cycles sends `true, false` once per cycle, in four await points per cycle |
| RequestProcessor.SequencePlanShape | components/horn-service-kuksa/src/request_processor.rs:72-82 | a sequenced command run to completion sends `true, false` once per cycle over all sequences flattened in order, and has no other await points than the cycles' own |
| RequestProcessor.SequencePlanEmpty | components/horn-service-kuksa/src/request_processor.rs:73-74 | a sequenced command has nothing to do exactly when it has no cycle, in particular when it has no sequence or only empty ones |
| RequestProcessor.NoCycles | components/horn-service-kuksa/src/request_processor.rs:73-74 | sequences whose cycle lists are all empty hold no cycle in total |
| RequestProcessor.CommandSignals | components/horn-service-kuksa/src/request_processor.rs:35-82 | a deactivation sends exactly `[false]` in one step; a continuous activation sends exactly `[true]` and never sleeps; a sequenced one sends the alternating signals of its cycles; any other mode has an empty plan |
| RequestProcessor.DirectiveMatch | components/horn-service-kuksa/src/request_processor.rs:35-82 | a command's first signal is `false` for a deactivation and `true` for an activation; it sends nothing exactly when it is a non-continuous activation without a cycle to play |
| RequestProcessor.PlayedIsPrefix | components/horn-service-kuksa/src/request_processor.rs:26-31 | however early it is cut short, a command sends a prefix of its full signals, and all of them once it runs to completion |
| RequestProcessor.TraceTwo | components/horn-service-kuksa/src/request_processor.rs:24-31 | two commands in a row send the first one's signals, then the second one's |
| RequestProcessor.TraceAppend | components/horn-service-kuksa/src/request_processor.rs:24-31 | the trace of two batches of commands is the first batch's trace followed by the second's, so no signal of a later command comes before a signal of an earlier one |
| RequestProcessor.TraceAt | components/horn-service-kuksa/src/request_processor.rs:26-31 | command i's contribution is a prefix of its own signals, placed between the signals of the commands before it and those after it |
| RequestProcessor.TraceCapped | components/horn-service-kuksa/src/request_processor.rs:26-31 | only the await points a plan actually has matter: budgets that agree up to each plan's length give the same trace |
| RequestProcessor.HornSequenceApply | components/horn-service-kuksa/src/request_processor.rs:72-82 | the nested loops of `horn_sequence_apply` go through exactly the await points of the sequence plan, cycle after cycle and sequence after sequence |
| RequestProcessor.Sequencer.constructor | components/horn-service-kuksa/src/request_processor.rs:20-23 | the sequencer starts waiting on the channel, with no plan in flight and nothing sent |
| RequestProcessor.Sequencer.Deliver | components/horn-service-kuksa/src/request_processor.rs:27-29 | a received command replaces the plan in flight, which is dropped where it stands, and starts from its first await point; nothing is sent |
| RequestProcessor.Sequencer.Advance | components/horn-service-kuksa/src/request_processor.rs:72-82 | the plan in flight passes one await point, sending its signal if it is a send |
| RequestProcessor.Sequencer.Play | components/horn-service-kuksa/src/request_processor.rs:26-31 | the plan runs until it completes or `budget` await points have passed, and exactly the signals of the steps it passed are appended |
| RequestProcessor.Sequencer.Serve | components/horn-service-kuksa/src/request_processor.rs:24-31 | serving a command for `budget` await points appends exactly what the command plays in that budget |
| RequestProcessor.Sequencer.ReceiveNext | components/horn-service-kuksa/src/request_processor.rs:24-31 | a queued command is taken from the front of the channel, logged as received and served; with nothing queued, nothing is received or played |
| RequestProcessor.Sequencer.Close | components/horn-service-kuksa/src/request_processor.rs:24-28 | once the channel reports closed, the playback is dropped, no plan is in flight and nothing more is sent |
| RequestProcessor.ReceiveRequests | components/horn-service-kuksa/src/request_processor.rs:20-33 | every queued command is taken in FIFO order and the signals sent are exactly the trace of those commands under the given race outcomes; if the senders are gone, the loop ends and the receiver is dropped |
| RequestProcessor.FourCycles | components/horn-client/src/main.rs:60-88 | the client's one-sequence, four-cycle request plays its four cycles in order |
| RequestProcessor.ThreeCyclesThenOnSignals | components/horn-client/src/main.rs:60-88 | three cycles and the fourth cycle's `true` send `true, false` three times, then `true` |
| RequestProcessor.ThreeCyclesThenOnWaitTime | components/horn-client/src/main.rs:60-88 | those thirteen await points sleep the on- and off-times of the first three cycles |
| RequestProcessor.ClientScenario | components/horn-client/src/main.rs:108 | with the client's request and a deactivation 1500 ms later, the deactivation wins inside the fourth cycle's 10000 ms sleep, and the horn sees `T,F,T,F,T,F,T` followed by the deactivation's `F` |
| RequestProcessor.CancelPlayed | components/horn-service-kuksa/src/request_processor.rs:41-45 | a deactivation that runs its one await point sends `false` |
| RequestProcessor.OneCyclePlan | components/horn-service-kuksa/src/request_processor.rs:72-82 | a sequenced request of one sequence with one cycle plays exactly that cycle |
| RequestProcessor.CyclePrefixSignals | components/horn-service-kuksa/src/request_processor.rs:74-80 | a cycle cut after 0, 1–2 or 3–4 await points sends nothing, `true`, or `true, false` |
| RequestProcessor.SequenceThenCancel | components/horn-service-kuksa/src/request_processor.rs:26-45 | a one-cycle sequence then a deactivation gives `false`, `true, false` or `true, false, false`, depending on where the deactivation wins; never a `true` after it |
| RequestProcessor.ContinuousThenSequence | components/horn-service-kuksa/src/request_processor.rs:26-31 | a continuous activation cut short by a one-cycle sequence gives `true, true, false` |
| RequestProcessor.SilentCommandPreempts | components/horn-service-kuksa/src/request_processor.rs:26-62 | a request in a mode that only logs sends nothing, yet cuts short the sequence in flight, which stays at `true` |
| RequestHandler.NewCommandChannel | components/horn-service-kuksa/src/main.rs:52 | the command channel is a fresh, empty, open FIFO of capacity 4 |
| RequestHandler.ActivateHandleRequest | components/horn-service-kuksa/src/request_handler.rs:38-57 | the decoded request is enqueued unchanged as `Some(req)` at the back; the default-status reply comes only once the send completed, and also when the channel is closed and nothing was queued; on a full channel the handler stays suspended and nothing changes |
| RequestHandler.DeactivateHandleRequest | components/horn-service-kuksa/src/request_handler.rs:76-96 | `None` is enqueued at the back whatever the request held; the reply has the same rules as for an activation |
| RequestHandler.ActivateThenDeactivate | components/horn-service-kuksa/src/request_handler.rs:38-96 | on an open channel with room for both, one caller's activation and then deactivation each enqueue exactly one command, in that order, after whatever was queued before, and both are acknowledged |
| Gateway.OrDefault | components/vehicle-gateway/src/gateway.rs:22 | a missing address field reads as the all-default address, and a present one as itself |
| Gateway.ForwardAuthority | components/vehicle-gateway/src/gateway.rs:22-32 | the forward authority is `hcp5` exactly when the source authority is `cloud`, and `WAUWAUGRRWAUWAU` exactly when it is not |
| Gateway.Readdress | components/vehicle-gateway/src/gateway.rs:36-42 | the rebuilt address has the forward authority and the same entity id; version and resource are cut to 8 and 16 bits, unchanged when they already fit, and differ from the originals by a multiple of 2^8 and 2^16 |
| Gateway.OnReceive | components/vehicle-gateway/src/gateway.rs:19-79 | an unknown type, an unsupported type, or a request without ttl each panic; a message is forwarded exactly when it is forwardable; the payload, its format and the type are kept; a request gets the re-addressed sink and keeps its source and ttl; a response gets the re-addressed source and keeps its sink and request id |
| Gateway.Build | components/vehicle-gateway/src/gateway.rs:72-76 | a missing payload, or a payload format with no name, panics; otherwise the message is built with the given attributes and the original payload |
| Gateway.RequestForwardIdempotent | components/vehicle-gateway/src/gateway.rs:35-48 | forwarding a forwarded request again changes only its id |
| Gateway.CloudRoundTrip | components/vehicle-gateway/src/gateway.rs:22-62 | a cloud request reaches the device; the service's answer, forwarded back, reaches the caller's own address under the id the gateway generated for the forwarded request (not the caller's own request id, which never comes back), from the invoked method under the vehicle's identity, with the answer's payload |
| Utf8.LeadLength | components/software-horn/src/main.rs:101-103 | a well-formed leading character is 1 to 4 bytes long, never longer than the buffer; an ASCII byte is one character and a multi-byte lead is between 0xC2 and 0xF4 |
| Utf8.Rejections | components/software-horn/src/main.rs:101-103 | a stray continuation byte, an overlong `/` and an encoded surrogate are not strings, while `é` is |
| SoftwareHorn.BoolText | components/software-horn/src/main.rs:87 | a status is written as `"true"` exactly when it is true, and a false one as `"false"` |
| SoftwareHorn.ZbytesToString | components/software-horn/src/main.rs:101-103 | a payload reads as a string exactly when it is well-formed UTF-8, and then as its own bytes |
| SoftwareHorn.ExtractAttachmentAsString | components/software-horn/src/main.rs:95-99 | there is an attachment string exactly when an attachment is present and is well-formed UTF-8 |
| SoftwareHorn.Reaction | components/software-horn/src/main.rs:63-79 | a status is decided exactly for a `targetValue` sample with a string payload, and it is on exactly when that payload is `"true"` |
| SoftwareHorn.Decisions | components/software-horn/src/main.rs:63-80 | one decision per sample, in arrival order |
| SoftwareHorn.StatusPut | components/software-horn/src/main.rs:85-89 | a status is put on the horn's key with attachment `currentValue`, and its payload is `"true"` exactly when the status is on and `"false"` when it is off |
| SoftwareHorn.PutFor | components/software-horn/src/main.rs:85-92 | a decision leads to one put exactly when it carries a status and the put does not fail, and that put is the status put |
| SoftwareHorn.Published | components/software-horn/src/main.rs:63-92 | the loop never makes more puts than it receives samples |
| SoftwareHorn.Publisher.constructor | components/software-horn/src/main.rs:57-60 | the publisher is declared on the given key and has published nothing |
| SoftwareHorn.PubCurrentStatus | components/software-horn/src/main.rs:85-93 | `pub_current_status` adds the status put, or nothing when the put fails |
| SoftwareHorn.HandleSample | components/software-horn/src/main.rs:64-78 | one loop iteration adds exactly the put the sample's decision leads to |
| SoftwareHorn.ReceiveLoop | components/software-horn/src/main.rs:63-80 | the receive loop publishes exactly the puts of the samples' decisions, in arrival order |
| SoftwareHorn.NothingDecided | components/software-horn/src/main.rs:63-80 | samples that decide no status publish nothing |
| SoftwareHorn.PublishedShape | components/software-horn/src/main.rs:85-89 | every put the loop makes is a `currentValue` put on the horn's key |
| SoftwareHorn.IgnoredSamples | components/software-horn/src/main.rs:63-65 | samples without a `targetValue` attachment publish nothing |
| SoftwareHorn.EchoesIgnored | components/software-horn/src/main.rs:52-65 | the sink's own `currentValue` echoes never cause another put |
| SoftwareHorn.TargetSampleReaction | components/software-horn/src/main.rs:66-74 | a `targetValue` sample of `"true"` or `"false"` decides that status |
| SoftwareHorn.OtherTextSwitchesOff | components/software-horn/src/main.rs:71-74 | any well-formed text other than `"true"` under `targetValue` switches the horn off |
| SoftwareHorn.AllDecided | components/software-horn/src/main.rs:63-80 | when every sample decides a status and no put fails, there is one status put per sample, in order |
| SoftwareHorn.FollowsSignals | components/software-horn/src/main.rs:63-92 | fed the signals as `targetValue` samples with no put failing, the sink reports back every signal, one put each, in order, with the same value |
| SoftwareHorn.PublishedAppend | components/software-horn/src/main.rs:63-80 | the puts for two runs of samples are the puts of the first run followed by those of the second |
| SoftwareHorn.FailureIsLocal | components/software-horn/src/main.rs:86-92 | a failed put loses only its own status; the loop carries on and the samples before and after publish as they would anyway |
| ActuatorProvider.CStr | components/actuator-provider/src/main.c:58 | a C string is never longer than its buffer |
| ActuatorProvider.CStrIsPrefix | components/actuator-provider/src/main.c:55-58 | a C string is the longest NUL-free prefix of its buffer, ended by a NUL unless the buffer ends first |
| ActuatorProvider.CStrOfNulFree | components/actuator-provider/src/main.c:161 | a buffer without NUL holds itself as a C string |
| ActuatorProvider.CStrOfTerminated | components/actuator-provider/src/main.c:133 | appending the terminator does not change the C string a buffer holds |
| ActuatorProvider.Classify | components/actuator-provider/src/main.c:58-69 | a text is CURRENT exactly when it is `currentValue`, TARGET exactly when it is `targetValue`, and UNKNOWN exactly when it is neither |
| ActuatorProvider.AttachmentHandlerAsWritten | components/actuator-provider/src/main.c:49-70 | as written, the handler's behaviour is undefined exactly when the value has 50 bytes or more |
| ActuatorProvider.AttachmentHandler | components/actuator-provider/src/main.c:49-70 | the key is ignored; the value is CURRENT exactly when its text is `currentValue` and TARGET exactly when it is `targetValue`; a text of 50 bytes or more is UNKNOWN |
| ActuatorProvider.AttachmentHandlerAgrees | components/actuator-provider/src/main.c:53-70 | wherever the code as written is defined, it classifies as the intended handler does |
| ActuatorProvider.AttachmentOverflowExample | components/actuator-provider/src/main.c:53-56 | a 50-byte value of `a`s overflows the buffer as written, and the intended handler calls it UNKNOWN |
| ActuatorProvider.AttachmentIterate | components/actuator-provider/src/main.c:148-149 | the iteration's result is one of the three signal codes |
| ActuatorProvider.AttachmentIterateCurrent | components/actuator-provider/src/main.c:148-154 | the iteration reports CURRENT exactly when every pair is `currentValue`, which includes an attachment with no pairs |
| ActuatorProvider.AttachmentIterateFirst | components/actuator-provider/src/main.c:148-149 | the iteration reports the class of the first pair that is not `currentValue` |
| ActuatorProvider.SinglePairIterate | components/actuator-provider/src/main.c:148-155 | an attachment of one pair reports that pair's class |
| ActuatorProvider.TrailingDigits | components/actuator-provider/src/main.c:75 | the count of digits a text ends with: all of those bytes are digits, and the byte before them is not |
| ActuatorProvider.IsValidTcpUrl | components/actuator-provider/src/main.c:73-86 | the result is -1 when the pattern does not compile; otherwise it is 0 exactly when the URL matches `^tcp/.*:[0-9]+$`, and `REG_NOMATCH` exactly when it does not |
| ActuatorProvider.TrailingDigitsMatch | components/actuator-provider/src/main.c:75-82 | the pattern matches exactly when the text starts with `tcp/` and its trailing digits are non-empty and preceded by a colon after that prefix |
| ActuatorProvider.DigitsAfterColon | components/actuator-provider/src/main.c:75 | a colon followed only by digits is where the trailing digits start |
| ActuatorProvider.ConnectInsertedAsWritten | components/actuator-provider/src/main.c:288-299 | as written, an empty CONNECT is never inserted; a non-empty one is inserted exactly when it does not match the URL pattern, and always when the pattern fails to compile |
| ActuatorProvider.ConnectInserted | components/actuator-provider/src/main.c:288-299 | as intended, CONNECT is inserted exactly when it is non-empty, the pattern compiles and it matches |
| ActuatorProvider.ConnectInverted | components/actuator-provider/src/main.c:294 | for any non-empty CONNECT, the code as written inserts exactly what the intended check leaves out |
| ActuatorProvider.ConnectInvertedExample | components/actuator-provider/src/main.c:294-298 | every `tcp/<host>:<digits>` URL, such as `tcp/10.0.0.1:7447`, is dropped as written and inserted as intended |
| ActuatorProvider.ConnectDocumentedFormat | components/actuator-provider/src/config.h:28-33 | every address in the documented format `tcp/<host>:<digits>#iface=docker0` fails the pattern, so it is inserted as written and dropped by the inverted check |
| ActuatorProvider.PayloadToString | components/actuator-provider/src/main.c:119-136 | the result is a fresh buffer of `len + 1` bytes: the payload's bytes in order, then a NUL |
| ActuatorProvider.DecideCases | components/actuator-provider/src/main.c:146-185 | a sample actuates on exactly when it is a `targetValue` with text `"true"`, actuates off exactly when the text is `"false"`, and is faulty for any other text; every other sample is ignored |
| ActuatorProvider.StatusPublication | components/actuator-provider/src/main.c:106-117 | the status is published as its text up to the first NUL, with the single attachment pair `type=currentValue` |
| ActuatorProvider.SampleEffects | components/actuator-provider/src/main.c:155-184 | only an actuating sample has effects: first the LED level (1 exactly for `"true"`, 0 exactly for `"false"`), then the same text reported as the current value |
| ActuatorProvider.Provider.constructor | components/actuator-provider/src/main.c:88-92 | the firmware starts with the LED at level 0, no effects and no live heap buffers |
| ActuatorProvider.Provider.TurnLed | components/actuator-provider/src/main.c:94-104 | the LED goes to level 1 for on and 0 for off, and the write is recorded |
| ActuatorProvider.Provider.PubStatus | components/actuator-provider/src/main.c:106-117 | exactly one `currentValue` publication of the value is recorded, and nothing else changes |
| ActuatorProvider.Provider.Allocate | components/actuator-provider/src/main.c:119-136 | a fresh terminated copy of the payload is made, and one more heap buffer is live |
| ActuatorProvider.Provider.Free | components/actuator-provider/src/main.c:167 | one heap buffer fewer is live |
| ActuatorProvider.Provider.SampleHandlerAsWritten | components/actuator-provider/src/main.c:138-191 | as written, the effects are exactly those of the sample's decision and the LED follows it, but a faulty sample leaves one more heap buffer live |
| ActuatorProvider.Provider.SampleHandler | components/actuator-provider/src/main.c:138-191 | as intended, the effects and LED level are the same, and no heap buffer is left live |
| ActuatorProvider.Provider.HandleTarget | components/actuator-provider/src/main.c:159-179 | `"true"` sets level 1, publishes `"true"` and frees the string; `"false"` does the same with 0; any other text changes neither LED nor effects and frees the string only if told to |
| ActuatorProvider.TargetSampleDecision | components/actuator-provider/src/main.c:155-179 | a `type=targetValue` sample whose payload has no NUL actuates on for `"true"`, off for `"false"`, and is faulty for any other text |
| ActuatorProvider.Step | components/actuator-provider/src/main.c:193-214 | an event keeps the retry count within the maximum; a new address resets it to 0 and marks the station connected; no other event changes the connected bit |
| ActuatorProvider.RetryBounded | components/actuator-provider/src/main.c:203-207 | whatever the events, the retry count never passes the configured maximum |
| ActuatorProvider.DisconnectRun | components/actuator-provider/src/main.c:200-208 | k losses in a row raise the count to `min(count + k, max)` and ask the driver to connect exactly that many more times |
| ActuatorProvider.GotIpRestoresRetries | components/actuator-provider/src/main.c:209-213 | for `event_handler` taken alone: after a new address, the next k losses get `min(k, max)` connection attempts |
| ActuatorProvider.WifiStation.constructor | components/actuator-provider/src/main.c:32-34 | the station starts with no retries, no connection requests, and not connected |
| ActuatorProvider.WifiStation.EventHandler | components/actuator-provider/src/main.c:193-214 | updating the globals in place has the effect of the reference step on the station's state |
| SignalSinks.SinksAgreeOnSignals | components/software-horn/src/main.rs:66-74 | on `"true"` and `"false"` the software horn and the actuator provider both switch to the signalled state |
| SignalSinks.SinksDisagreeOnOtherText | components/actuator-provider/src/main.c:176-179 | on any other NUL-free string, the software horn switches off while the actuator provider leaves its LED as it was |

## Left out

- Transport and RPC wiring is not modelled: the zenoh uProtocol transport, the in-memory RPC server, endpoint registration and the horn client. They are library plumbing; only the command channel's capacity 4 carries over, as a constant.
- Real time is not modelled: sleeps are `Wait(ms)` steps with no clock. The scenario in `ClientScenario` fixes by hand where the deactivation wins, from the sleep durations.
- Concurrency is not modelled. Tokio's tasks and `select!`'s branch order are the parameter `runs`; any interleaving is one choice of `runs`.
- The signal channel of capacity 32 (components/horn-service-kuksa/src/main.rs:34) is represented by the unbounded trace of sent signals, so its capacity is not a constant of the model. A send that waits on a full channel is one more await point at which the plan can be cut short, which `runs` already covers.
- ActuatorProvider.GotIpRestoresRetries describes an event sequence the firmware never delivers. `wifi_init_sta` unregisters both handlers once the first address arrives (components/actuator-provider/src/main.c:253-256), so no later disconnection reaches `event_handler`, and the device never reconnects. If the retries run out before any address, `wifi_init_sta` blocks forever waiting for WIFI_CONNECTED_BIT (main.c:244-246), since no failure bit is ever set.
- Gateway.CloudRoundTrip shows that the answer carries the id the builder generated for the forwarded request (gateway.rs:45-49 passes no message id). The cloud caller's own request id never comes back, so a caller that matches replies by that id cannot pair this reply. The gateway keeps no table from generated ids back to callers' ids, and the model does not add one.
- Channel.Channel.DropSenders is a transition the program never takes: `main` parks forever (components/horn-service-kuksa/src/main.rs:68) while both handlers hold clones of the sender (:58, :63). So `Disconnected` never happens, and `ReceiveRequests` never ends by closing in the program as written.
- SoftwareHorn.Echoes is an assumption about the zenoh network, not code of the sink: a subscriber on the key it publishes on hears its own puts back. It is used only to state `EchoesIgnored`.
- `connections.rs` (the Kuksa databroker client and the terminal printer) is not part of this model.
- Protobuf encoding and decoding are not modelled: decoding is a `Result` given to the handler, and `UPayload::try_from_protobuf` of a response is taken to succeed.
- RequestHandler.ActivateHandleRequest and RequestHandler.DeactivateHandleRequest require a present, decodable payload, because the source unwraps both and panics otherwise.
- Gateway.Build and Gateway.OnReceive do not model `UUri::try_from_parts` or the message builder failing, the builder's generated message id (the parameter `freshId`), or its default priority. `client.send(...).await.unwrap()` is I/O and is left out, so a failed send's panic is not modelled.
- Gateway.OnReceive models the source field's authority as read through the default accessor, so a missing source address behaves as one with an empty authority.
- `z_attachment_iterate` comes from zenoh-pico, which is not part of this model. It is modelled as calling the handler on each pair in order and returning the first nonzero result, or 0.
- The regex library is not modelled. `regcomp` failing is the parameter `compiles`, and `regexec` is the pattern's meaning written out, with `REG_NOMATCH` equal to 1 as in newlib.
- ActuatorProvider.Provider.SampleHandlerAsWritten classifies attachments with the corrected `AttachmentHandler`. An attachment value of 50 bytes or more, which is undefined behaviour in the code as written, is therefore given the intended outcome here (UNKNOWN, so the sample is ignored). The overflow is modelled only in `AttachmentHandlerAsWritten`. This member keeps only the leak as written.
- ActuatorProvider.Provider.PubStatus requires a value shorter than its 32-byte buffer. Its only callers pass `"true"` or `"false"`, and a longer value would overflow `sprintf`.
- `malloc` failure (the exit in `payload_to_string`) is not modelled.
- GPIO and publications are recorded as effects; log output is left out.
- `wifi_init_sta`, `app_main` (apart from the CONNECT decision), NVS and session setup are hardware and network I/O and are not modelled. `ESP_MAXIMUM_RETRY` comes from build configuration and is the parameter `maxRetry`.
- `esp_wifi_connect` is recorded as a count of connection requests; the driver's behaviour is not modelled.
- The software horn's `sound` option, configuration loading and session opening are I/O. Its loop's end, when `recv` fails, is the end of the finite sample sequence given to `ReceiveLoop`.

## Findings

| source | as written | input that shows it | evidently intended | confidence | as-written member | corrected member |
|---|---|---|---|---|---|---|
| components/actuator-provider/src/main.c:53-56 | `attachment_handler` copies `value.len` bytes into `char type[50]` and writes the NUL at index `value.len` | an attachment value of 50 bytes or more, such as fifty `a`s | the value's text classified whatever its length, a long value being UNKNOWN | high, not executed | ActuatorProvider.AttachmentHandlerAsWritten, ActuatorProvider.AttachmentOverflowExample | ActuatorProvider.AttachmentHandler |
| components/actuator-provider/src/main.c:176-179 | the faulty-payload branch of `sample_handler` does not free the string `payload_to_string` allocated | a `type=targetValue` sample with payload `on` | the string freed on every path, as the `"true"` and `"false"` branches do | high, not executed | ActuatorProvider.Provider.SampleHandlerAsWritten, ActuatorProvider.TargetSampleDecision | ActuatorProvider.Provider.SampleHandler |
| components/actuator-provider/src/main.c:294 | CONNECT is inserted when `is_valid_tcp_url` returns nonzero, which means no match | CONNECT = `tcp/10.0.0.1:7447` | insert CONNECT when the validator returns 0 (a match). Counter-evidence: the build configuration documents CONNECT as `tcp/<ip>:7447#iface=docker0` (components/actuator-provider/src/config.h:28-33). That format fails the pattern, so only the code as written inserts it (`ConnectDocumentedFormat`). A fix must therefore also let the pattern accept the `#iface` suffix | low, not executed | ActuatorProvider.ConnectInsertedAsWritten, ActuatorProvider.ConnectInvertedExample | ActuatorProvider.ConnectInserted |
