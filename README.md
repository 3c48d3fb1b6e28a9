# ApplicationInsightsHttpModule and the QuickPulse counter list, in Dafny

This project models two parts of the Application Insights server SDK.

**The web request-lifecycle hook `ApplicationInsightsHttpModule`.**
- The module is an `IHttpModule`. Its constructor activates the telemetry configuration. A failure disables the module and logs a `WebModuleInitializationExceptionEvent`.
- `Init` subscribes `OnBeginRequest` to the application's BeginRequest event, then `OnEndRequest` to EndRequest. A failing subscription also disables the module and logs the event.
- An enabled module responds to each begin event with a verbose callback trace, then `OnBegin` to the lifecycle publisher.
- On each end event, an enabled module traces the callback and then asks `IsFirstRequest`.
  - `IsFirstRequest` reads the `__ai.EndRequestCallFlag` marker in the request context's `Items`.
  - It adds the marker when the marker reads as null.
  - It fails open: it answers "first" whenever something throws (after logging `FirstRequestCheckFailure`) and whenever there is no context.
  - A first end call publishes `OnError` and then `OnEnd`. A repeated one logs `RequestFiltered`.
- `TraceCallback` writes `WebModuleCallback(callback, url)` only when the event source's verbose level is on and there is a context. A null URL is written as the empty string. A failure to obtain the URL is logged as `TraceCallbackFailure`.

**The QuickPulse counter table `QuickPulsePerfCounterList.CountersToCollect`.**
- This is a fixed, ordered table of three (counter kind, Windows performance-counter path) pairs.

The project has four modules:
- `Lifecycle` (`lifecycle.dfy`) states each callback as a pure function of the state before it. These are `Construct`, `InitStep`, `TraceCallbackEvents`, `CheckFirstRequest`, `BeginRequestEvents` and `EndRequestStep`. It composes them into a history model, `Step` and `Run`, over host calls, and proves what the module promises about whole histories. The promises are:
  - deduplication of repeated end events;
  - fail-open;
  - the flag never being re-enabled;
  - a disabled module staying silent;
  - `OnError` always directly followed by `OnEnd`;
  - tracing never changing a decision.
- `HttpModule` (`http_module.dfy`) is the imperative form.
  - The class `ApplicationInsightsHttpModule` has the mutable `isEnabled` field.
  - The host objects it is handed are classes too: `HttpApplication` with its handler lists and current context, and `HttpContext` with its mutable `Items` dictionary.
  - The event log is the class `EventLog`.
  - Every method's `ensures` ties the new state to the matching `Lifecycle` function of the old state.
- `HostScenarios` (`host_scenarios.dfy`) drives the objects the way the host does. `Serve` proves that after any sequence of host calls the objects stand for the state `Run` predicts. The concrete histories give the exact logs of a few typical requests.
- `QuickPulsePerfCounterList` (`quick_pulse_perf_counter_list.dfy`) holds the counter table, with a lookup and its properties.

Exceptions thrown by the host environment are inputs:
- a bootstrap `Outcome`;
- a `Registration` saying which subscription throws;
- per-call `Faults` for obtaining the URL, reading the marker and adding the marker.

Adding a key that `Items` already holds fails on its own, as the dictionary's `Add` does.

Edge cases of the code that the model reproduces as written:
- **A request without a context.** The code logs nothing for a null context (`ApplicationInsightsHttpModule.cs:99`). With nowhere to store the marker, it reports the `OnError`/`OnEnd` pair on every end call. `NoContextEndRequestPublishes` and `WithoutContextHistory` state this behaviour.
- **Deduplication with an injected fault.** Repeated end calls for one request report a single pair only while neither reading nor adding the marker throws (`ApplicationInsightsHttpModule.cs:101-111`). Either failure makes the check answer "first" again. `RepeatedEndRequestsPublishOnce` carries that condition, `ReadFailureHistory` shows a second pair, and `EndRequestsAccounted` states what holds without it.
- **A marker key that already holds null.** If such a key is present in `Items`, the marker reads as absent, but adding it throws because the key exists. Every end call then logs the failure and publishes the pair again, which `NullMarkerEndCall` and `NullMarkerHistory` state.
- **The counter table.** It pairs the CPU-utilization kind with `\Memory\Committed Bytes` and the memory kind with `\Processor(_Total)\% Processor Time`. The table is modelled exactly as written, and `CpuAndMemoryPathsCrossed` pins the pairing down.

## Model

| member | source | states |
|---|---|---|
| HttpModule.ApplicationInsightsHttpModule.constructor | Src/Web/Web.Shared.Net/ApplicationInsightsHttpModule.cs:18-35 | the module is enabled exactly when the bootstrap succeeds; a failed bootstrap appends its one initialization event to the log |
| HttpModule.ApplicationInsightsHttpModule.Init | Src/Web/Web.Shared.Net/ApplicationInsightsHttpModule.cs:42-57 | the new flag, the begin and end handler lists (each gains this module when subscribed) and the log are those `InitStep` gives for the old flag |
| HttpModule.ApplicationInsightsHttpModule.TraceCallback | Src/Web/Web.Shared.Net/ApplicationInsightsHttpModule.cs:116-137 | the log gains exactly `TraceCallbackEvents` of the verbose switch, the callback name and the current context |
| HttpModule.ApplicationInsightsHttpModule.IsFirstRequest | Src/Web/Web.Shared.Net/ApplicationInsightsHttpModule.cs:94-114 | the answer, the context's new Items and the diagnostics appended are those of `CheckFirstRequest` on the context as it was |
| HttpModule.ApplicationInsightsHttpModule.OnBeginRequest | Src/Web/Web.Shared.Net/ApplicationInsightsHttpModule.cs:66-73 | the log gains exactly `BeginRequestEvents` for the module's flag and the verbose switch |
| HttpModule.ApplicationInsightsHttpModule.OnEndRequest | Src/Web/Web.Shared.Net/ApplicationInsightsHttpModule.cs:75-92 | the context and the log end as `EndRequestStep` of the old flag, verbose switch and context says |
| HttpModule.HttpContext.Add | Src/Web/Web.Shared.Net/ApplicationInsightsHttpModule.cs:104 | outcome and new Items are those of `AddItem` on the old Items |
| Lifecycle.AddRefusesExistingKey | Src/Web/Web.Shared.Net/ApplicationInsightsHttpModule.cs:104 | Add succeeds iff the key is new and nothing throws, then holds the new entry; a failed Add leaves the dictionary unchanged; an existing key always fails with the duplicate-key error |
| Lifecycle.Construct | Src/Web/Web.Shared.Net/ApplicationInsightsHttpModule.cs:23-35 | enabled iff the bootstrap passes; no event then, exactly one initialization event carrying the failure otherwise |
| Lifecycle.InitSubscribesOrDisables | Src/Web/Web.Shared.Net/ApplicationInsightsHttpModule.cs:42-57 | stays enabled iff it was enabled and both subscriptions succeed; the begin handler is subscribed iff enabled and its own subscription did not throw; the end handler iff the module stays enabled; a disabled module does nothing; a failure logs exactly one initialization event |
| Lifecycle.TraceCallbackAtMostOnce | Src/Web/Web.Shared.Net/ApplicationInsightsHttpModule.cs:116-137 | at most one trace event, present iff verbose and there is a context; it names the callback; it is a failure event iff obtaining the URL throws, else carries the URL with a null URL as "" |
| Lifecycle.FirstRequestCheckFailsOpen | Src/Web/Web.Shared.Net/ApplicationInsightsHttpModule.cs:94-114 | answers "not first" iff a context exists, the read does not throw and the marker is non-null; no context gives "first" silently; Items change only by adding the missing marker; an Add that throws (injected fault, or a key already holding null) logs exactly that failure, answers "first" and leaves Items unchanged; a "first" answer without a diagnostic leaves the marker set; at most one diagnostic, after which the answer is "first" and Items are unchanged |
| Lifecycle.BeginRequestEndsWithOnBegin | Src/Web/Web.Shared.Net/ApplicationInsightsHttpModule.cs:66-73 | nothing when disabled; otherwise only trace events and then OnBegin as the last event |
| Lifecycle.EndRequestReportsOnce | Src/Web/Web.Shared.Net/ApplicationInsightsHttpModule.cs:75-92 | nothing changes when disabled; otherwise the context is the check's and the events end with OnError then OnEnd when the check answers "first" and with RequestFiltered when it does not |
| Lifecycle.ContextOf | Src/Web/Web.Shared.Net/ApplicationInsightsHttpModule.cs:99 | a callback sees a (non-null) context exactly for a request the host holds a context for |
| Lifecycle.Initial | Src/Web/Web.Shared.Net/ApplicationInsightsHttpModule.cs:18-35 | after construction the module is enabled iff the bootstrap passed, holds the host's requests, and its log is exactly the constructor's: nothing, or the one initialization event with the failure text |
| Lifecycle.StepMonotoneAndIsolated | Src/Web/Web.Shared.Net/ApplicationInsightsHttpModule.cs:42-92 | one host call never re-enables the module, changes nothing once disabled, only appends to the log, keeps the set of requests, changes no request but the one an end call is for, and only Init changes the flag |
| Lifecycle.BeginStepShape | Src/Web/Web.Shared.Net/ApplicationInsightsHttpModule.cs:66-73 | an enabled begin call appends the begin trace and then OnBegin, and leaves every request as it was |
| Lifecycle.EndStepShape | Src/Web/Web.Shared.Net/ApplicationInsightsHttpModule.cs:75-92 | an enabled end call appends the end trace, then the check's diagnostics, then the check's report, and stores the check's context for that request |
| Lifecycle.EndStepOutcomes | Src/Web/Web.Shared.Net/ApplicationInsightsHttpModule.cs:82-90 | the lifecycle reports of one enabled end call are exactly the pair or exactly RequestFiltered, as the check answers |
| Lifecycle.EndStepFilteredKeepsRequests | Src/Web/Web.Shared.Net/ApplicationInsightsHttpModule.cs:87-90 | a filtered end call leaves every request's Items as they were |
| Lifecycle.FirstEndCall | Src/Web/Web.Shared.Net/ApplicationInsightsHttpModule.cs:99-105 | the first end call on Items without the marker and without faults adds the marker with value true and appends the trace, OnError and OnEnd |
| Lifecycle.RepeatedEndCall | Src/Web/Web.Shared.Net/ApplicationInsightsHttpModule.cs:101-102 | an end call that reads a non-null marker changes no request and appends the trace and RequestFiltered only |
| Lifecycle.ReadFailureEndCall | Src/Web/Web.Shared.Net/ApplicationInsightsHttpModule.cs:108-113 | an end call whose marker read throws changes no request and appends the trace, the logged failure, OnError and OnEnd, whatever Items holds |
| Lifecycle.NullMarkerEndCall | Src/Web/Web.Shared.Net/ApplicationInsightsHttpModule.cs:101-111 | a marker key already holding null reads as absent, but the Add throws (duplicate key), so the call changes no request and appends the trace, the duplicate-key failure, OnError and OnEnd |
| Lifecycle.StepKeepsErrorThenEnd | Src/Web/Web.Shared.Net/ApplicationInsightsHttpModule.cs:84-85 | if every OnError in the log is directly followed by OnEnd, the same holds after any host call |
| Lifecycle.BeginRequestPublishesOnce | Src/Web/Web.Shared.Net/ApplicationInsightsHttpModule.cs:66-73 | an enabled begin call reports exactly one OnBegin, writes nothing but that and its trace, and leaves every request alone |
| Lifecycle.NoContextEndRequestPublishes | Src/Web/Web.Shared.Net/ApplicationInsightsHttpModule.cs:94-99 | an end call for a request without a context writes, apart from the trace, exactly OnError and OnEnd (no diagnostic) and changes no request |
| Lifecycle.TracingDoesNotAffectEnd | Src/Web/Web.Shared.Net/ApplicationInsightsHttpModule.cs:116-137 | two end calls that differ only in the verbose switch and the URL fault leave the same requests and the same events apart from traces |
| Lifecycle.TracingDoesNotAffectBegin | Src/Web/Web.Shared.Net/ApplicationInsightsHttpModule.cs:116-137 | two begin calls that differ only in tracing write the same events apart from traces |
| Lifecycle.TracingDoesNotAffectLifecycle | Src/Web/Web.Shared.Net/ApplicationInsightsHttpModule.cs:116-137 | tracing decides nothing: the flag, the requests and the trace-free log are the same whatever the verbose switch and URL fault |
| Lifecycle.RunFlagMonotone | Src/Web/Web.Shared.Net/ApplicationInsightsHttpModule.cs:18 | once disabled, the module is disabled at the end of any history |
| Lifecycle.RunDisabledIsSilent | Src/Web/Web.Shared.Net/ApplicationInsightsHttpModule.cs:66-92 | a disabled module's history changes nothing: no event of any kind, no request touched |
| Lifecycle.BootstrapFailureSilencesModule | Src/Web/Web.Shared.Net/ApplicationInsightsHttpModule.cs:25-35 | after a failed bootstrap, any history leaves exactly the one initialization event, the module disabled and the requests as given |
| Lifecycle.RegistrationFailureSilencesModule | Src/Web/Web.Shared.Net/ApplicationInsightsHttpModule.cs:44-56 | an Init whose subscription throws logs one initialization event and disables the module, and no later call writes or changes anything |
| Lifecycle.RunAppendsOnly | Src/Web/Web.Shared.Net/ApplicationInsightsHttpModule.cs:66-92 | any history keeps the earlier log as a prefix of the later one |
| Lifecycle.RunKeepsErrorThenEnd | Src/Web/Web.Shared.Net/ApplicationInsightsHttpModule.cs:84-85 | in every history every OnError is immediately followed by OnEnd |
| Lifecycle.RepeatedEndRequestsFiltered | Src/Web/Web.Shared.Net/ApplicationInsightsHttpModule.cs:87-90 | once the marker is set, N further fault-free end calls report exactly N RequestFiltered and change no request |
| Lifecycle.RepeatedEndRequestsPublishOnce | Src/Web/Web.Shared.Net/ApplicationInsightsHttpModule.cs:94-105 | N >= 1 end calls for a request without the marker and without marker faults report one OnError, then OnEnd, then N - 1 RequestFiltered; afterwards Items are the old ones plus the marker set to true |
| Lifecycle.RepeatedEndRequestsCounts | Src/Web/Web.Shared.Net/ApplicationInsightsHttpModule.cs:82-90 | the same history, counted over the whole appended log: exactly one OnError, one OnEnd, N - 1 RequestFiltered and no OnBegin |
| Lifecycle.EndRequestsAccounted | Src/Web/Web.Shared.Net/ApplicationInsightsHttpModule.cs:82-90 | whatever throws, N enabled end calls report, in call order, one OnError/OnEnd pair or one RequestFiltered per call |
| Lifecycle.EndRequestsCounts | Src/Web/Web.Shared.Net/ApplicationInsightsHttpModule.cs:82-90 | over any N enabled end calls, OnError and RequestFiltered together occur N times, OnEnd as often as OnError, and OnBegin never |
| Lifecycle.FailOpenPublishesEnd | Src/Web/Web.Shared.Net/ApplicationInsightsHttpModule.cs:96-111 | for a request whose marker reads as absent or that has no context, the first end call reports OnError then OnEnd, whatever throws |
| HostScenarios.Perform | Src/Web/Web.Shared.Net/ApplicationInsightsHttpModule.cs:48-49 | the host raising one event on the objects (or calling Init) leaves them standing for the history model's next state |
| HostScenarios.Serve | Src/Web/Web.Shared.Net/ApplicationInsightsHttpModule.cs:42-92 | after any sequence of host calls the objects stand for the state `Run` gives |
| HostScenarios.ServeRequest | Src/Web/Web.Shared.Net/ApplicationInsightsHttpModule.cs:23-92 | freshly built objects, driven through construction and the calls, end with the log and the Items the history model predicts |
| HostScenarios.TypicalHistory | Src/Web/Web.Shared.Net/ApplicationInsightsHttpModule.cs:75-105 | Init, begin and two end events on a healthy untraced request log exactly OnBegin, OnError, OnEnd, RequestFiltered and leave the marker set |
| HostScenarios.TypicalRequest | Src/Web/Web.Shared.Net/ApplicationInsightsHttpModule.cs:66-105 | the objects serving that request yield that exact log and Items holding only the marker |
| HostScenarios.WithoutContextHistory | Src/Web/Web.Shared.Net/ApplicationInsightsHttpModule.cs:96-99 | with no context, verbose tracing writes nothing and both end events publish the pair |
| HostScenarios.NullUrlTraceHistory | Src/Web/Web.Shared.Net/ApplicationInsightsHttpModule.cs:126-129 | with verbose tracing and a null URL, each callback is traced with the empty string just before its report |
| HostScenarios.ReadFailureHistory | Src/Web/Web.Shared.Net/ApplicationInsightsHttpModule.cs:108-113 | a read failure on the second end event is logged and the pair is published a second time; the marker stays set |
| HostScenarios.NullMarkerHistory | Src/Web/Web.Shared.Net/ApplicationInsightsHttpModule.cs:101-111 | a marker key holding null makes each of two end events log the duplicate-key failure and publish the pair; the null entry stays |
| HostScenarios.BootstrapFailure | Src/Web/Web.Shared.Net/ApplicationInsightsHttpModule.cs:25-73 | after a failed bootstrap, Init subscribes nothing and the handlers write nothing: the log is the one initialization event |
| HostScenarios.EndSubscriptionFailure | Src/Web/Web.Shared.Net/ApplicationInsightsHttpModule.cs:46-73 | when the end subscription throws, the begin handler stays subscribed, the end handler is not, and the disabled begin handler writes nothing |
| QuickPulsePerfCounterList.CountersToCollectArray | Src/PerformanceCollector/Shared/Implementation/QuickPulse/QuickPulsePerfCounterList.cs:10-17 | every access yields a new array holding the table's entries in order |
| QuickPulsePerfCounterList.CountersToCollectLength | Src/PerformanceCollector/Shared/Implementation/QuickPulse/QuickPulsePerfCounterList.cs:12-17 | the table has three entries |
| QuickPulsePerfCounterList.CountersToCollectKindsUnique | Src/PerformanceCollector/Shared/Implementation/QuickPulse/QuickPulsePerfCounterList.cs:14-16 | no kind occurs twice and every kind occurs exactly once |
| QuickPulsePerfCounterList.CountersToCollectOrder | Src/PerformanceCollector/Shared/Implementation/QuickPulse/QuickPulsePerfCounterList.cs:14-16 | the kinds come in the order queue size, CPU utilization, memory |
| QuickPulsePerfCounterList.CountersToCollectPaths | Src/PerformanceCollector/Shared/Implementation/QuickPulse/QuickPulsePerfCounterList.cs:14-16 | looking any kind up finds a non-empty path, and each kind's path is the one written beside it |
| QuickPulsePerfCounterList.CategoriesOfPaths | Src/PerformanceCollector/Shared/Implementation/QuickPulse/QuickPulsePerfCounterList.cs:15-16 | the committed-bytes path is in the Memory category and not Processor; the processor-time path the other way round |
| QuickPulsePerfCounterList.CpuAndMemoryPathsCrossed | Src/PerformanceCollector/Shared/Implementation/QuickPulse/QuickPulsePerfCounterList.cs:15-16 | the CPU-utilization kind is read from a Memory counter and the memory kind from a Processor counter, as written |

## Left out

- Event subscription is modelled as two handler lists. The host's event invocation is `HostScenarios.Perform`, which calls the handler directly. The `(HttpApplication)sender` cast and the `EventArgs` are not modelled.
- `TelemetryConfiguration.Active` becomes a bootstrap `Outcome`. What it initializes is outside the module.
- Exceptions thrown by the host environment become the caller-supplied `Faults` and `Registration`. Which host conditions raise them is not modelled.
- `WebEventSource` and `WebEventsPublisher` are merged into one ordered log. Their ETW plumbing is not modelled. The verbose switch is a field of that log.
- The exception text passed to the logger (`ToInvariantString`) is an opaque string.
- URL retrieval and `Uri.ToString` are not modelled. The URL is already text, or None for a null URL.
- `RequestTrackingConstants` is not part of this model. The marker key `__ai.EndRequestCallFlag` is an assumed value.
- The `QuickPulsePerfCounters` enum file is not part of this model. The enum holds the three kinds the table uses.
- `Dispose` has an empty body and is not modelled.
- Concurrent requests are not modelled. The host calls one handler at a time, and the objects carry a single current context, which is request 0 in `HostScenarios`.
- The counter sampling engine that reads the table is not part of this model.
- NullMarkerEndCall: a marker key holding null is stated for one end call, and `NullMarkerHistory` shows two. There is no lemma over N calls.
