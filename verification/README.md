# Verified model of the Insights agent's stateful core

The agent captures network traffic, turns it into witnesses of HTTP exchanges, and uploads
them; its daemon shares traces between local clients and the cloud. This project models the
long-running state machines of both in Dafny and proves what holds in every run of them.

Each component comes as a module of functions on values, which fixes what an operation does and
about which the run-level theorems are proved, and, where the program updates objects in place,
a module of classes whose methods are proved to do exactly what those functions say.

| files | component |
|---|---|
| `CloudState`, `CloudProtocol`, `CloudInvariants`, `CloudTheorems`, `CloudRecords`, `CloudUploads`, `CloudClient` | the daemon's cloud client: one main goroutine and the pollers, uploaders and clients racing around it |
| `TcpFlow`, `TcpMessages` | one direction of a TCP stream: reassembled bytes, parsers, dropped bytes |
| `RateLimit`, `RateHistory`, `CollectorStack`, `CollectorHistory`, `RateLimitCollector` | the shared rate limit and the stack of filters, limiter and sampler around it |
| `WitnessPairing`, `BackendCollector`, `ReportBuffer`, `ReportContents` | pairing of requests with responses, and the way of a witness to an uploaded report |
| `ConnTracker`, `ConnTrackerCollector` | the TCP connection tracker |
| `PacketCounter`, `BoundedCounter` | packet counters bounded in keys, and their top entries |
| `StripReader`, `Luhn` | the control-character stripping reader, and Luhn's check |
| `Counting`, `Options` | counting lemmas, an option type |

How the cloud client is modelled: a `World` is the service table, the event queue, all channels
ever made, the polls and uploads in flight, the answers sent and the history of requests and of the
events offered to channels. A `Step` is one handler run by the main goroutine, one answer or failure of a poll, one pass of an
upload loop, one end of an upload, or one client request. `IsRun` is any sequence of enabled
steps. Iteration over Go maps is a free choice: the listing of a `Dispatch`, the order given to
`Shut`, the set of keys a flush covers.

How the rate limiter is modelled: rational arithmetic and an idealised clock, on which timers fire
exactly when due and before any request at that instant.

## Where the code departs from what it says

- A witness flushed without its partner has the sender of its only message as source, so for a lone
  response the fields documented as the client's (trace/backend_collector.go:44-47) are the
  server's: `WitnessPairing.LoneSourceIsSender`.
- Pairing depends on the order of arrival when the request method is empty and the path or host is not:
  `WitnessPairing.OrderIndependentExactlyWhen`.
- A TCP flow can lose the bytes left over by a message if it completes without a call that is marked as the
  end: `TcpFlow.LeftoverIsLost`. Its default branch, for a decision other than the three it knows, leaves
  the accept buffer behind, whose bytes are then counted twice: `TcpFlow.UnknownDecisionCountsTwice`. That
  branch is defensive, and nothing in the repository shows a selector that leads to it. The exact
  condition for both is `TcpFlow.TilesExactlyWhen`.
- Packet metadata has the packet's own ports but always the addresses of the stream's first packet
  (pcap/stream.go:299-318), so a connection report can give the server's address with the client's
  port: `ConnTracker.StrayAckSwapsAddresses`; the exact condition is in `ConnTracker.RunReportsClient`
  and `ConnTracker.EqualPortsMislead`.
- The moving average keeps the estimate below the epoch exactly if 2·alpha·(epoch − 1) < epoch; the
  configured weight is not checked: `RateLimit.EstimateBoundedExactlyWhen`.

## Model

| member | source | states |
|---|---|---|
| CloudTheorems.OnePollObligation | daemon/internal/cloud_client/long_poll_service_event.go:24-46 | in every reachable state each registered service has exactly one queued long-poll, poll in flight or queued changed-traces event, and an unregistered one has none |
| CloudTheorems.ActiveFrozen | daemon/internal/cloud_client/cloud_client.go:113-121 | a service's active set moves only when a changed-traces event of that service is handled |
| CloudTheorems.DiffWasFetched | daemon/internal/cloud_client/long_poll_service_event.go:24-46 | every queued diff was the answer to an earlier poll of its service, made with the recorded snapshot |
| CloudTheorems.ThreeWayAgreement | daemon/internal/cloud_client/change_active_traces_event.go:28-98 | handling a diff makes the active set equal to the cloud's set at the time of its answer, sends every parked client a diff that takes it to the same set, and leaves nobody parked |
| CloudTheorems.AnswerReconciles | daemon/internal/cloud_client/registration_request.go:33-66 | applying the answer to a registration, immediate or delayed, to the traces it listed gives the active set of that moment, and the client is registered with the activated traces still held |
| CloudTheorems.AnsweredOnce | daemon/internal/cloud_client/registration_request.go:38-66 | no request is answered twice |
| CloudTheorems.RequestConserved | daemon/internal/cloud_client/registration_request.go:10-66 | every request issued is in exactly one of: queued, uploading, parked, answered |
| CloudRecords.RegistrationAnswered | daemon/internal/cloud_client/registration_request.go:38-66 | a registration handled in a run is answered at once if and only if what the client knows differs from the active set, with exactly the difference, and each activated trace has the options the cloud sent last for it |
| CloudRecords.OptionsAreLastSent | daemon/internal/cloud_client/cloud_client.go:128-152 | in every reachable state a held trace has the options of the last entry for it in a handled diff |
| CloudRecords.DispatchRecords | daemon/internal/cloud_client/change_active_traces_event.go:71-95 | in every run, handling an event gives a held trace exactly the clients it had, those told about it by the answers sent, and one that sent events for it, less one that unregistered; and changes its options only to the last entry for it in the diff |
| CloudRecords.EventsHandled | daemon/internal/cloud_client/trace_event_request.go:80-114 | trace events are refused if and only if the trace is not held; else one uploader gets all of them, the channel, and whether they are the last |
| CloudTheorems.OpenIffRetained | daemon/internal/cloud_client/client_state.go:74-97 | a trace event channel is open exactly while its trace is in the table, and a retained trace is active or has a client |
| CloudTheorems.ClosedForGood | daemon/internal/cloud_client/cloud_client.go:204-232 | over a whole run a channel is closed at most once, never reopened, and never changes hands |
| CloudTheorems.UploadersSendOnOpenChannels | daemon/internal/cloud_client/trace_event_request.go:95-158 | under the client contract no uploader in flight ever holds a closed channel |
| CloudTheorems.HeadCanBeHandled | daemon/internal/cloud_client/cloud_client.go:46-65 | whatever event is at the head of the queue in a reachable state, its handler runs without dereferencing an unknown service |
| CloudInvariants.RunKeepsInv | daemon/internal/cloud_client/cloud_client.go:46-65 | the seven invariants (one token, snapshots, parked clients agree, channels, uploaders, client contract, requests) hold in every state of every run |
| CloudInvariants.StepKeepsTokens | daemon/internal/cloud_client/long_poll_service_event.go:24-46 | every kind of step passes the poll token on, neither losing nor doubling it |
| CloudInvariants.ChangedAppliesDiff | daemon/internal/cloud_client/change_active_traces_event.go:34-98 | a handled diff takes the active set S to (S with the activated traces) without the deactivated ones, and retains every trace that has a client |
| CloudInvariants.HandlerKeepsTable | daemon/internal/cloud_client/trace_event_request.go:80-198 | each handler touches one service's table and keeps it consistent with the channels |
| CloudInvariants.HandlerKeepsBacked | daemon/internal/cloud_client/trace_event_request.go:177-198 | no handler takes the trace, its channel or the client registration away from under an upload in flight |
| CloudInvariants.StepKeepsContract | daemon/run.go:63-66 | after a client's final request at most that request, or the unregistration it leaves behind, is outstanding for the stream |
| CloudState.DiffReconciles | daemon/internal/cloud_client/client_state.go:46-72 | the diff computed for a known set takes that set to the active set, and is empty exactly if they are equal |
| CloudClientImpl.ServiceInfo.GetActiveTraceDiff | daemon/internal/cloud_client/client_state.go:46-72 | lists exactly the active traces not known and the known traces not active, each once, with the records of the former |
| CloudClientImpl.CloudClient.GetInfo | daemon/internal/cloud_client/cloud_client.go:71-88 | returns the records of service and trace exactly if they are known |
| CloudClientImpl.CloudClient.EnsureServiceRegistered | daemon/internal/cloud_client/cloud_client.go:90-107 | registers a new service with an empty table and enqueues its first long-poll; does nothing to a known one |
| CloudClientImpl.CloudClient.GetCurrentTraces | daemon/internal/cloud_client/cloud_client.go:109-121 | lists exactly the active traces of the service, each once |
| CloudClientImpl.CloudClient.StartTraceEventCollector | daemon/internal/cloud_client/cloud_client.go:123-152 | reactivates a retained trace under its new options, or makes a trace with a new open channel; nothing else changes |
| CloudClientImpl.CloudClient.UnregisterTrace | daemon/internal/cloud_client/cloud_client.go:204-232 | closes the channel and deletes the trace exactly if it is inactive and has no clients |
| CloudClientImpl.CloudClient.HandleLongPoll | daemon/internal/cloud_client/long_poll_service_event.go:24-46 | starts one poller with the active set as snapshot |
| CloudClientImpl.CloudClient.HandleRegistration | daemon/internal/cloud_client/registration_request.go:38-66 | answers at once and enrols the client if its traces differ from the active ones, else parks it with what it knows |
| CloudClientImpl.CloudClient.HandleChanged | daemon/internal/cloud_client/change_active_traces_event.go:34-98 | refines the handler the run theorems are about: activate, deactivate, answer and enrol all parked clients, resume polling |
| CloudClientImpl.CloudClient.HandleTraceEvents | daemon/internal/cloud_client/trace_event_request.go:80-114 | rejects an unknown trace, else registers the client and starts one uploader on the trace's channel |
| CloudClientImpl.CloudClient.HandleUnregister | daemon/internal/cloud_client/trace_event_request.go:175-198 | removes the client and retires the trace if nothing needs it any more |
| CloudInvariants.InvReadiesHead | daemon/internal/cloud_client/cloud_client.go:46-65 | the invariants give the handler of the queue's head all it needs: a registered service and a labelled diff |
| CloudClientImpl.CloudClient.Turn | daemon/internal/cloud_client/cloud_client.go:46-65 | in any world whose invariants hold, one pass of the main loop is an enabled step of the step system, after which they hold again, so the loop's runs are runs of the model |
| CloudClientImpl.CloudClient.UploadTraceEvents | daemon/internal/cloud_client/trace_event_request.go:116-158 | enqueues the events for which there is room, in order, tells the client how many of the others were dropped, and posts its unregistration if the request was its last: the loop's passes and end are those of the step system |
| CloudUploads.AnswersAreTrue | daemon/internal/cloud_client/trace_event_request.go:80-158 | in every run and interleaving, a refused request had no event offered to a channel; of any other, each event was offered once, in order, the answer gives exactly the number without room, and it is an acceptance exactly if that is 0 |
| CloudUploads.OfferedToOpenChannel | daemon/internal/cloud_client/trace_event_request.go:110-128 | every event is offered to an open channel of the trace it was sent to |
| CloudUploads.UploadReports | daemon/internal/cloud_client/trace_event_request.go:116-158 | the passes of one upload with given outcomes, and its end, answer with their number of drops and post the unregistration exactly of a last request |
| TcpFlow.CallConserves | pcap/stream.go:89-196 | one call emits, hands to the parser or keeps for redelivery exactly the bytes it was given, in order, and revokes no emission |
| TcpFlow.StreamConserved | pcap/stream.go:89-196 | after every call of a stream, emitted + held by the parser + kept for redelivery is what was delivered, in order |
| TcpFlow.TilesExactlyWhen | pcap/stream.go:198-220 | the emissions of a completed flow tile the stream if and only if a parser was still at work or the accept buffer holds just the kept bytes |
| TcpFlow.EndedStreamTiles | pcap/stream.go:89-220 | if the last call is the end of the stream, the emissions tile it: no byte lost, none counted twice |
| TcpFlow.StreamFaithful | pcap/stream.go:77-196 | every dropped-bytes emission counts its own bytes and is never empty; every message is what a parser returned on being fed its bytes |
| TcpMessages.LastCallFindsMessages | pcap/stream.go:176-187 | if the selector and fresh parsers see the last bytes of a stream as messages one after the other, with bytes to discard before them and perhaps a tail that is no message, exactly these messages and drops are emitted, and nothing is left behind |
| TcpMessages.MessageInChunks | pcap/stream.go:89-196 | however the bytes of a message are cut into calls: while the parser asks for more it is fed them all, and its last answer makes them one message, less what it did not use, or one drop; what it did not use is kept for the next call, or parsed at once at the end |
| TcpMessages.SelectorDecides | pcap/stream.go:96-155 | what the selector does not hand to a parser: bytes to discard are dropped, bytes it wants more of are kept, rejected bytes and bytes without sequence information are dropped |
| TcpMessages.WaitingIsTransparent | pcap/stream.go:112-125 | bytes the selector wants more of are seen again with those of the next call, as if both had come in one |
| TcpMessages.CompletionAsks | pcap/stream.go:198-220 | if the stream completes while a parser wants more, it is asked once more, and all it was fed is one message or one drop by its answer |
| TcpFlow.EndRecursionShrinks | pcap/stream.go:176-187 | the recursive call at the end of a stream skips more bytes, or leaves a parser that held some, and stays within the available bytes |
| TcpFlow.LeftoverIsLost | pcap/stream.go:188-196 | a concrete stream whose left-over byte is in no emission because no end call follows |
| TcpFlow.UnknownDecisionCountsTwice | pcap/stream.go:89-160 | a concrete stream whose first byte is counted twice after the defensive default branch is taken |
| TcpFlow.TcpFlow.HandleUnparseable | pcap/stream.go:77-81 | reports a positive number of bytes as dropped, and nothing for none |
| TcpFlow.TcpFlow.ReassembledWithIgnore | pcap/stream.go:88-196 | the recursive method terminates and does to the flow and to what the assembler keeps exactly what the reference call does |
| TcpFlow.TcpFlow.ParseInput | pcap/stream.go:156-196 | feeding the current parser: message, error or more, as in the reference call |
| TcpFlow.TcpFlow.ReassemblyComplete | pcap/stream.go:198-220 | flushes the parser, or else the accept buffer, as in the reference |
| RateLimit.EstimateBoundedExactlyWhen | trace/rate_limit.go:80-98 | over every run the estimate stays in [0, epoch) if and only if 2·alpha·(epoch − 1) < epoch |
| RateLimit.HalfIsDamped | trace/rate_limit.go:20-32 | a weight of at most 1/2, such as the default, meets that condition for every epoch |
| RateLimit.UndampedEscapes | trace/rate_limit.go:80-162 | if the condition fails, a run exists after which the random generator would be asked for a number from an empty range |
| RateLimit.RunKeepsOrderly | trace/rate_limit.go:101-162 | in every run: the count of an active interval is below the limit, pending timers fall in the current epoch, an interval spans at most one epoch boundary |
| RateLimit.IntervalLength | trace/rate_limit.go:127-162 | an interval lasts less than two epochs minus the estimate |
| RateHistory.LimiterAsTold | trace/rate_limit.go:60-177 | in every run: an interval starts at the beginning of an epoch plus the drawn offset and is active up to the request that makes its number of witnesses full; meanwhile every request is admitted, and no other; the estimate is the first full length, smoothed with those that follow |
| RateHistory.EstimateBetweenLengths | trace/rate_limit.go:80-98 | the estimate lies between the shortest and the longest length of the intervals that became full |
| RateLimit.StretchAdmits | trace/rate_limit.go:60-177 | over any stretch of a run, admissions are bounded by the starts in it plus the room left at its beginning, with one start per epoch tick |
| RateLimit.StartsBoundAdmission | trace/rate_limit.go:164-177 | n interval starts admit at most n times the witnesses per epoch |
| RateLimit.EpochsBoundAdmission | trace/rate_limit.go:101-177 | any k consecutive epochs admit at most k + 1 times the witnesses per epoch |
| RateLimitImpl.SharedRateLimit.constructor | trace/rate_limit.go:287-305 | the limit per epoch is the rate per minute times the minutes of the epoch, rounded down, at least 1 |
| RateLimitImpl.SharedRateLimit.StartInterval | trace/rate_limit.go:60-72 | begins an interval with a fresh count |
| RateLimitImpl.SharedRateLimit.EndInterval | trace/rate_limit.go:80-98 | ends the interval and averages its length into the estimate; the first length is taken as it is |
| RateLimitImpl.SharedRateLimit.StartNewEpoch | trace/rate_limit.go:127-162 | plans the interval within the epoch and passes the expiry threshold to every collector that takes it |
| RateLimitImpl.SharedRateLimit.AllowHTTPRequest | trace/rate_limit.go:164-177 | admits while an interval is active, and ends it with the last request it has room for |
| RateLimitImpl.SharedRateLimit.OnCollectorClose | trace/rate_limit.go:224-233 | removes just the closed collector and keeps the order of the others |
| RateLimitImpl.RateLimitCollector.Process | trace/rate_limit.go:235-267 | forwards an admitted request and remembers it, forwards a response once if its request is remembered, and then expires old requests if told to |
| RateLimitImpl.RateLimitCollector.ExpireRequests | trace/rate_limit.go:275-285 | drops exactly the requests older than the threshold |
| RateLimitImpl.GenericRequestFilter.Process | trace/filters.go:108-130 | rejects requests the filter refuses, and every response with the witness ID of a rejected request |
| RateLimitImpl.NotExcluded | trace/filters.go:13-43 | accepts unless some matcher matches; a request without subject is accepted |
| RateLimitImpl.Allowed | trace/filters.go:45-76 | accepts exactly if there is a subject that some matcher matches |
| CollectorStack.SinksCoherent | apidump/apidump.go:726-744 | through all composed stacks and any interleaving, at every point of every sink each key has at most as many responses as requests before them |
| CollectorStack.ResponseForwardedExactlyWhen | trace/collector.go:53-79 | a response reaches the sink if and only if no filter holds its witness ID, the limiter remembers its request, and its key is sampled |
| CollectorHistory.ResponseReachesSinkExactlyWhen | trace/rate_limit.go:235-285 | told from the run's history alone: a response reaches the sink if and only if no request with its witness ID was refused before, its key is sampled, and the last request of its key that passed the filters while an interval was active has had no response since and is not older than the threshold of any expiry since |
| CollectorHistory.RequestReachesSinkExactlyWhen | trace/filters.go:108-130 | a request reaches the sink if and only if every filter accepts it, an interval is active, and its key is sampled |
| CollectorHistory.OtherReachesSinkExactlyWhen | trace/rate_limit.go:179-189 | other traffic reaches the sink if and only if an interval is active and it is sampled |
| CollectorHistory.LimiterAskedExactlyWhen | trace/rate_limit.go:235-245 | the shared rate limit is asked for just the requests that every filter of their stack accepts |
| CollectorHistory.ChannelAsTold | trace/rate_limit.go:149-161 | the threshold waiting for a collector is that of the first epoch begun since a packet last passed its filters |
| CollectorStack.SinksWithinLimit | trace/rate_limit.go:164-267 | all sinks together receive at most one HTTP request per admission, at most n times the limit for n interval starts |
| CollectorStack.SinksWithinEpochs | trace/rate_limit.go:101-177 | any k consecutive epochs put at most k + 1 times the witnesses per epoch into all sinks together |
| WitnessPairing.PairingDescribes | trace/backend_collector.go:81-112 | in either order of arrival the pair has the same bodies, client and server endpoints, HTTP method, and latency from request end to response start |
| WitnessPairing.PairingKeepsLine | learn/learn.go:20-28 | the paired witness has the request's path, host and method if the response came first or the request has a method, else an empty line |
| WitnessPairing.MillisecondsMeans | trace/backend_collector.go:90-112 | the latency is the duration in whole microseconds, cut toward zero, over 1000 |
| WitnessPairing.OrderIndependentExactlyWhen | learn/learn.go:8-28 | the whole witness is independent of the order of arrival if and only if the request has a method, or neither path nor host |
| WitnessPairing.LoneSourceIsSender | trace/backend_collector.go:41-55 | a lone witness has its sender as source: the client for a request, the server for a response |
| WitnessPairing.LoneDescribes | trace/backend_collector.go:214-231 | a witness of one message has its key, interface, observation time, endpoints and body, and nothing of a partner |
| WitnessPairing.RunKeepsInv | trace/backend_collector.go:172-237 | in every interleaving of arrivals and flushes each message is in exactly one queued or waiting witness, made of one message or of two with the same key |
| WitnessPairing.CloseQueuesExactly | trace/backend_collector.go:292-334 | after closing, a message is in exactly one queued witness if and only if it was not left waiting with an observation time at or after the close time |
| WitnessPairing.AllQueuedAtClose | trace/backend_collector.go:292-297 | if all observation times precede the close time, nothing waits and every message is in exactly one queued witness |
| WitnessPairing.PairsAreExchanges | trace/backend_collector.go:197-231 | if messages with equal keys are a request and its response, every witness queued in a run and made of two messages describes their exchange in either order of arrival, with the observation time and interface of the one that arrived first |
| BackendCollectorImpl.MergeWitness | learn/learn.go:8-28 | merging in place gives the value-level merge the pairing theorems are about; only a destination without a method may get a source without one, which is the one case the program does not dereference |
| BackendCollectorImpl.WitnessWithInfo.ComputeProcessingLatency | trace/backend_collector.go:90-112 | sets the latency in milliseconds if both timestamps and the metadata are there |
| BackendCollectorImpl.WitnessWithInfo.RecordTimestamp | trace/backend_collector.go:81-88 | stores the timestamp that brackets the processing interval |
| BackendCollectorImpl.BackendCollector.Process | trace/backend_collector.go:172-237 | completes and queues the waiting partner, or stores the message; no other entry changes |
| BackendCollectorImpl.BackendCollector.FlushPairCache | trace/backend_collector.go:325-334 | queues and deletes the entries observed before the cutoff, in some order, each once |
| ReportBuffer.ClosedAccounts | trace/report_buffer.go:49-113 | after closing the buffer is empty, and what was sent is exactly the accepted witnesses and the connection reports, each in one batch and in order; every other witness was counted under its one fate |
| ReportBuffer.SentOrFailed | trace/report_buffer.go:80-108 | a batch gets through or fails as a whole: reports delivered and reports lost add up to those sent |
| ReportBuffer.FatesAddUp | trace/backend_collector.go:275-290 | delivered, lost with a failed upload, rejected, unconvertible and oversized witnesses add up to the queued ones |
| ReportContents.SentAsMeant | trace/backend_collector.go:275-290 | the witness reports sent are, in order and once each, those of the queued witnesses that no plugin refuses and that convert within the size limit, with the obfuscated form of what the plugins in turn made of the method and everything else as captured |
| ReportContents.SentIsObfuscated | trace/backend_collector.go:282-289 | every witness sent is that of a queued one, and its method went through the obfuscation |
| ReportContents.JudgeMeans | trace/report_buffer.go:49-68 | a witness is rejected, unconvertible, oversized or accepted exactly as the plugins, the conversion and the limit have it, and nothing else |
| ReportContents.BatchesSentWhenFull | trace/report_buffer.go:77-113 | a batch is sent as soon as it is full, and not before unless the timer asks; the timer leaves nothing behind; no upload is empty |
| ReportBuffer.MessageReportedOnce | trace/backend_collector.go:172-297 | from end to end: after closing, each message processed is in exactly one queued witness, and in exactly one report, delivered or lost with its batch, if that witness was accepted, else in none |
| ReportBufferImpl.ReportBatch.AddWitness | trace/report_buffer.go:49-78 | buffers a witness unless it fails in conversion or is oversized, and says whether the buffer is full |
| ReportBufferImpl.ReportBatch.Flush | trace/report_buffer.go:80-108 | uploads what is pending unless there is nothing, and leaves the buffer empty |
| ReportBufferImpl.ReportBatch.QueueUpload | trace/backend_collector.go:275-290 | applies the plugins in turn; only a witness that none refuses goes to the batch |
| ReportBufferImpl.ReportBatch.AddConnection | trace/backend_collector.go:239-273 | a connection report always goes to the batch |
| ConnTracker.TracksEachAlone | tcp_conn_tracker/tcp_conn_tracker.go:46-184 | whatever other connections and stale timers do, the reports for an ID are the summaries of its own groups of packets, in order, each once; after closing none is active |
| ConnTracker.PacketsConserved | tcp_conn_tracker/tcp_conn_tracker.go:46-86 | but for bare ACKs and resets, the groups reported and the open one are, end to end, the packets that arrived before closing |
| ConnTracker.EntriesReportedOnce | tcp_conn_tracker/tcp_conn_tracker.go:102-184 | every entry ever added has been reported exactly once or is active; after closing, all are reported |
| ConnTracker.QuietOnceClosed | tcp_conn_tracker/tcp_conn_tracker.go:102-138 | nothing is reported after closing, whatever timers still fire |
| ConnTracker.PassesJustTheRest | tcp_conn_tracker/tcp_conn_tracker.go:46-86 | in every run, what is passed on is, in order and once each, all traffic other than TCP packets, even after closing, and exactly the TCP packets that came before closing for a connection with an open group |
| ConnTracker.EntryOpenedExactlyWhen | tcp_conn_tracker/tcp_conn_tracker.go:59-79 | a packet opens an entry if and only if the tracker is not closed, the connection has none, and the packet is neither a reset nor a bare ACK |
| ConnTracker.SummaryTimes | tcp_conn_tracker/tcp_conn_tracker.go:203-210 | the reported times are the least and greatest over all packets of the group |
| ConnTracker.SummaryEndState | tcp_conn_tracker/tcp_conn_tracker.go:231-239 | over the packets after the first: reset if any has RST, else closed if any has FIN, else open |
| ConnTracker.SummaryInitiator | tcp_conn_tracker/tcp_conn_tracker.go:212-229 | the initiator is unknown exactly if no packet after the first has SYN, and else judged by the first that has |
| ConnTracker.InitiatorIsFinal | tcp_conn_tracker/tcp_conn_tracker.go:212-229 | an inferred initiator never changes |
| ConnTracker.ReportContents | trace/backend_collector.go:239-259 | a report has the ID, the least and greatest times, the end state, and the two endpoints of its packets, and a known initiator exactly if a packet after the first has SYN |
| ConnTracker.ClientIsSource | trace/backend_collector.go:239-259 | with SYN only from the client, SYN-ACK only from the server and different ports, a summary with known initiator has the client's port as source and the server's as destination; its addresses are right if and only if the entry and the stream began in the same direction, or the addresses are equal |
| ConnTracker.RunReportsClient | tcp_conn_tracker/tcp_conn_tracker.go:46-184 | the same for every report of every run on the stream's packets, whichever groups timers and closing make of them; the entry's own port tells in which direction it began |
| ConnTracker.ReportedSegments | pcap/stream.go:296-318 | every report of a run is the summary of segments captured from its stream |
| ConnTracker.EqualPortsMislead | tcp_conn_tracker/tcp_conn_tracker.go:212-229 | with equal ports the addresses are right if and only if the deciding packet went in the direction of the stream's first packet, or the addresses are equal |
| ConnTracker.StrayAckSwapsAddresses | pcap/stream.go:299-318 | a stray ACK of the server before the handshake makes the report give the server's address with the client's port |
| ConnTrackerImpl.ConnectionInfo.AugmentWith | tcp_conn_tracker/tcp_conn_tracker.go:203-242 | one packet's effect on times, initiator and end state, as in the reference |
| ConnTrackerImpl.Collector.Process | tcp_conn_tracker/tcp_conn_tracker.go:46-86 | ignores, adds, augments and forwards as in the reference, touching no other connection's record |
| ConnTrackerImpl.Collector.FlushConnection | tcp_conn_tracker/tcp_conn_tracker.go:140-166 | reports and removes the connection, and says whether it existed |
| ConnTrackerImpl.Collector.Close | tcp_conn_tracker/tcp_conn_tracker.go:102-138 | reports every active connection in some order and leaves none |
| PacketCounter.CountsAreAccurate | trace/stats.go:225-264 | after any history: min(limit, keys seen) keys are tracked, exactly those first seen before the limit was reached, each with the sum of all contributions to it; the overflow is the sum of all others |
| PacketCounter.NothingUncounted | trace/stats.go:251-281 | tracked and overflowing counts add up to everything contributed |
| PacketCounter.TotalsConserved | trace/stats.go:62-128 | after any updates the ports hold twice the total, the interfaces the total, the hosts the sum over named hosts |
| PacketCounter.PortsAreAccurate | trace/stats.go:92-114 | a tracked port has the updates it was the source of plus those it was the destination of, under its own label; at most 10,000 are tracked |
| PacketCounter.InterfacesAreAccurate | trace/stats.go:116-125 | a tracked interface has the sum of the updates on it, under its own name |
| PacketCounter.HostsAreAccurate | trace/stats.go:66-90 | a tracked host has the updates it was the source of plus those it was the destination of, under its own name; the empty name is never tracked |
| PacketCounter.TopIsUnique | trace/stats.go:287-316 | the top entries do not depend on map iteration order |
| PacketCounter.TopGrows | trace/stats.go:287-316 | the n top entries are among the n' top entries for n <= n' |
| PacketCounterImpl.BoundedPacketCounter.AddOrInsert | trace/stats.go:251-264 | adds to a tracked key, else inserts below the limit, else adds to the overflow |
| PacketCounterImpl.BoundedPacketCounter.TopN | trace/stats.go:287-316 | min(n, size) entries, each before every entry left out by projection descending, then key; and the overflow exactly if the limit is reached |
| PacketCounterImpl.Counters.Update | trace/stats.go:62-128 | one update's contributions to hosts, ports, interface and total |
| PacketCounterImpl.Counters.Summary | trace/stats.go:178-218 | the total, the n top ports and interfaces by TCP packets and hosts by requests and TLS hellos, and the overflow of each counter that has reached its limit |
| StripReader.CleanedKeepsEscapes | learn/json_preprocessor.go:16-24 | the output has no byte up to 0x1f, and what follows it is escaped exactly if it would be after the raw input |
| StripReader.KeptByteEscapedAlike | learn/json_preprocessor.go:39-61 | every kept byte is escaped in the output exactly if it is escaped in the input |
| StripReader.CleanedFixed | learn/json_preprocessor.go:39-61 | exactly the inputs without control characters are left as they are |
| StripReader.CleanedTwice | learn/json_preprocessor.go:39-61 | cleaning twice is cleaning once |
| StripReader.CleanedExtends | learn/json_preprocessor.go:24-73 | more input only extends the output, by no more than its own length |
| StripReader.ControlsReplaced | learn/json_preprocessor.go:16-24 | a control character that is not escaped might as well not be there, and one that is escaped might as well be a backslash, whatever comes before and after |
| StripReader.StripControlCharactersReader.Read | learn/json_preprocessor.go:16-73 | however the source doles out its bytes and whatever sizes are asked for, all output so far is the cleaned form of all input so far; the buffer is not overrun; reading stops exactly when it is full or after a short reply or error, which is returned |
| StripReader.StripControlCharactersReader.CopyByte | learn/json_preprocessor.go:39-61 | one byte is kept, replaced or removed, and the flag stays the parity of the trailing backslashes |
| Luhn.ValidLuhn | learn/luhn.go:9-37 | the left-to-right loop accepts exactly the strings of at least 13 digits whose right-to-left weighted sum (Annex B of ISO/IEC 7812-1) is divisible by 10 |
| Luhn.SingleChangeDetected | learn/luhn.go:9-37 | every change of one digit of a valid number is detected |
| Luhn.AdjacentSwapDetected | learn/luhn.go:9-37 | a swap of two different adjacent digits goes undetected if and only if they are 0 and 9 |
| Luhn.UniqueCheckDigit | learn/luhn.go:9-37 | every prefix of at least twelve digits has exactly one check digit |

## Left out

- REST clients, telemetry, printing, commands and flags, installers, packet capture, decompression, and body decoding: input and output, or foreign libraries.
- Interleavings finer than one handler, one poll result, one pass of an upload loop, one `Process` call or one flushed entry; wherever the program holds a mutex or runs in one goroutine these are its atomic steps.
- The capacity of the daemon's event queue (50) and the blocking it causes, the heartbeat event, and the goroutine that drains a trace event channel; whether there is room for an event is a free choice.
- The daemon theorems assume that the cloud labels trace options with the polled service, and that a client's `noMoreEvents` request is its last for the trace, with none of its others outstanding.
- The options that the collector goroutine of a trace was started with: it keeps those of the activation that made its channel, also when the trace is reactivated under others; the model has the options of the record, which are the ones told to clients.
- `deactivationChannels` of the daemon's trace records, which nothing reads, and how long a failed poll waits before it is retried.
- The TCP flow theorems assume a contract of selector and parsers: a rejection discards everything, unused bytes belong to the latest input, an error covers everything fed, a parser completes only after a byte and does not ask for more at the end. `EndedStreamTiles` also assumes that the selector makes only decisions the flow knows.
- Timestamps and endpoints of TCP flow emissions, and whether the assembler context lacks sequence information: the latter is a parameter.
- Rounding of floating point: the moving average and the latency are exact rationals, and the estimate is their integer part. Overflow of 64-bit counters, durations and sums is not modelled either.
- Scheduling latency of timers: the clock is ideal, and a collector's process step sees the rate limit's state at one instant.
- Weights of the moving average outside [0, 1] and epochs that are not positive.
- RateLimitImpl.SharedRateLimit.StartNewEpoch: requires that the estimate is below the epoch, which `RateLimit.EstimateBoundedExactlyWhen` shows to hold in every run exactly for damped weights; otherwise the random generator panics.
- The hash of the sampler and the regular expressions of the filters are abstract functions; the third-party tracker filter has the same shape as the host filter.
- WitnessPairing.PairsAreExchanges: assumes that messages with equal keys are a request and its response in opposite directions, as the key is derived from stream and sequence number.
- The batcher around the report buffer is a library: it is taken to flush when an addition says that the buffer is full, on a timer, and on closing. Whether an upload gets through is a parameter.
- TLS handshake and TCP connection reports of the report buffer are one kind, as both always go to the batch.
- The TLS connection tracker, which depends on handshake logic not part of this model.
- Process of the packet count collector, which only builds the counts that an update adds.
- PacketCounterImpl.Counters.Summary: without the version and the three limits, which are constants.
- PacketCounterImpl.BoundedPacketCounter.TopN: returns values, where the program returns pointers to the live counters; and it takes n >= 0. Sorting is a library function there and an insertion sort here.
- The stripping reader's source has finitely many bytes: on an endless stream of control characters `Read` would not return.
- Luhn.ValidLuhn: strings are sequences of bytes; a byte outside the digits, as any non-ASCII character, makes the number invalid in both.
- Nothing was executed; all statements are about the model.
