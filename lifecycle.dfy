/**
 * The request-lifecycle rules of ApplicationInsightsHttpModule as pure
 * functions: what each host call does to the module's enabled flag, to the
 * request's Items dictionary and to the ordered log of events the module
 * writes to its two sinks (the lifecycle publisher and the diagnostic event
 * source). The class in module HttpModule is specified by these functions;
 * the lemmas at the end are about whole histories of host calls.
 */
module Lifecycle {
  import opened Wrappers

  /** Key of the per-request marker in the request's Items dictionary. */
  const EndRequestCallFlag: string := "__ai.EndRequestCallFlag"

  /** Stands for the text of the duplicate-key exception that Items' Add throws; its exact wording is opaque here. */
  const DuplicateKeyDetail: string := "An item with the same key has already been added."

  /** Callback names the module traces. */
  const BeginCallbackName: string := "OnBegin"
  const EndCallbackName: string := "OnEndRequest"

  /** A value stored in a request's Items dictionary (an untyped object, possibly null). */
  datatype ItemValue = NullItem | BoolItem(b: bool) | OtherItem(id: nat)

  /** What the module sees of a live request context: its Items and its URL text (None for a null URL). */
  datatype Context = Context(items: map<string, ItemValue>, url: Option<string>)

  /** How a statement guarded by a catch-all ended: normally, or by an exception with this text. */
  datatype Outcome = Pass | Fail(detail: string)

  /** Exceptions the host environment throws inside a callback's try blocks. */
  datatype Faults = Faults(
    urlFault: Option<string>,   // obtaining or formatting the request URL for a trace
    readFault: Option<string>,  // reading the marker from Items
    addFault: Option<string>    // adding the marker to Items (besides a duplicate key)
  )

  const NoFaults: Faults := Faults(None, None, None)

  /** How subscribing the two handlers to the host went. */
  datatype Registration = Registered | BeginRequestFails(detail: string) | EndRequestFails(detail: string)

  /** Everything the module writes, publisher and event source together, in order. */
  datatype Event =
    | OnBegin
    | OnError
    | OnEnd
    | WebModuleInitializationExceptionEvent(detail: string)
    | WebModuleCallback(callback: string, url: string)
    | TraceCallbackFailure(callback: string, detail: string)
    | FirstRequestCheckFailure(detail: string)
    | RequestFiltered

  /** Notifications to the lifecycle publisher. */
  predicate IsPublisherEvent(e: Event)
  {
    e.OnBegin? || e.OnError? || e.OnEnd?
  }

  /** Events of the verbose callback trace. */
  predicate IsTrace(e: Event)
  {
    e.WebModuleCallback? || e.TraceCallbackFailure?
  }

  // ---------------------------------------------------------------------------
  // The request's Items dictionary
  // ---------------------------------------------------------------------------

  /** The marker reads as null: the key is missing or holds null. */
  predicate MarkerAbsent(items: map<string, ItemValue>)
  {
    EndRequestCallFlag !in items || items[EndRequestCallFlag] == NullItem
  }

  /** The marker key is present but holds null (someone else stored it so). */
  predicate MarkerHeldNull(items: map<string, ItemValue>)
  {
    EndRequestCallFlag in items && items[EndRequestCallFlag] == NullItem
  }

  datatype Added = Added(outcome: Outcome, items: map<string, ItemValue>)

  /** The dictionary's Add: refuses a key it already holds, or fails with the injected fault. */
  function AddItem(items: map<string, ItemValue>, key: string, value: ItemValue, fault: Option<string>): Added
  {
    if key in items then Added(Fail(DuplicateKeyDetail), items)
    else if fault.Some? then Added(Fail(fault.value), items)
    else Added(Pass, items[key := value])
  }

  // The contracts of the step functions are stated as lemmas about a given result r == F(inputs):
  // as ensures on the functions themselves they would be in scope of every proof that mentions them.

  /** Add succeeds exactly for a new key and no fault; a failed Add leaves the dictionary as it was. */
  lemma AddRefusesExistingKey(items: map<string, ItemValue>, key: string, value: ItemValue, fault: Option<string>, r: Added)
    requires r == AddItem(items, key, value, fault)
    ensures r.outcome.Pass? <==> key !in items && fault.None?
    ensures r.outcome.Pass? ==> r.items == items[key := value]
    ensures r.outcome.Fail? ==> r.items == items
    ensures key in items ==> r.outcome == Fail(DuplicateKeyDetail)
  {
  }

  // ---------------------------------------------------------------------------
  // One callback at a time
  // ---------------------------------------------------------------------------

  datatype Construction = Construction(enabled: bool, events: seq<Event>)

  /** The constructor: a failed configuration bootstrap disables the module and logs one event. */
  function Construct(bootstrap: Outcome): (r: Construction)
    ensures r.enabled <==> bootstrap.Pass?
    ensures r.enabled ==> r.events == []
    ensures !r.enabled ==> r.events == [WebModuleInitializationExceptionEvent(bootstrap.detail)]
  {
    match bootstrap
    case Pass => Construction(true, [])
    case Fail(detail) => Construction(false, [WebModuleInitializationExceptionEvent(detail)])
  }

  datatype InitResult = InitResult(enabled: bool, subscribedBegin: bool, subscribedEnd: bool, events: seq<Event>)

  /** Init: subscribes the begin handler, then the end handler; a failure disables the module. */
  function InitStep(enabled: bool, registration: Registration): InitResult
  {
    if !enabled then InitResult(false, false, false, [])
    else
      match registration
      case Registered => InitResult(true, true, true, [])
      case BeginRequestFails(detail) => InitResult(false, false, false, [WebModuleInitializationExceptionEvent(detail)])
      case EndRequestFails(detail) => InitResult(false, true, false, [WebModuleInitializationExceptionEvent(detail)])
  }

  /**
   * Init leaves an enabled module enabled exactly when both subscriptions
   * succeed; a failure logs one event, and a disabled module does nothing.
   */
  lemma InitSubscribesOrDisables(enabled: bool, registration: Registration, r: InitResult)
    requires r == InitStep(enabled, registration)
    ensures r.enabled <==> enabled && registration.Registered?
    ensures !enabled ==> !r.subscribedBegin && !r.subscribedEnd && r.events == []
    ensures r.subscribedBegin <==> enabled && !registration.BeginRequestFails?
    ensures r.subscribedEnd <==> r.enabled
    ensures enabled && !registration.Registered? ==>
      r.events == [WebModuleInitializationExceptionEvent(registration.detail)]
    ensures r.enabled ==> r.events == []
  {
  }

  /** The URL as logged: a null URL becomes the empty string. */
  function LogUrl(url: Option<string>): string
  {
    if url.Some? then url.value else ""
  }

  /** TraceCallback: one trace event when verbose tracing is on and there is a context, else nothing. */
  function TraceCallbackEvents(verbose: bool, callback: string, ctx: Option<Context>, urlFault: Option<string>): seq<Event>
  {
    if !verbose || ctx.None? then []
    else if urlFault.Some? then [TraceCallbackFailure(callback, urlFault.value)]
    else [WebModuleCallback(callback, LogUrl(ctx.value.url))]
  }

  /**
   * The trace is at most one event, present exactly when tracing is on and
   * there is a context: the callback with its URL (a null URL as ""), or the
   * failure to obtain the URL.
   */
  lemma TraceCallbackAtMostOnce(verbose: bool, callback: string, ctx: Option<Context>, urlFault: Option<string>, r: seq<Event>)
    requires r == TraceCallbackEvents(verbose, callback, ctx, urlFault)
    ensures |r| <= 1
    ensures r != [] <==> verbose && ctx.Some?
    ensures forall e :: e in r ==> IsTrace(e) && e.callback == callback
    ensures r != [] ==> (r[0].TraceCallbackFailure? <==> urlFault.Some?)
    ensures r != [] && urlFault.None? ==> r[0] == WebModuleCallback(callback, LogUrl(ctx.value.url))
    ensures verbose && ctx.Some? && ctx.value.url.None? && urlFault.None? ==> r == [WebModuleCallback(callback, "")]
  {
  }

  datatype Check = Check(first: bool, ctx: Option<Context>, diagnostics: seq<Event>)

  /**
   * IsFirstRequest: fails open. It answers "not first" only when the marker is
   * already there, writes the marker at most once and touches no other entry.
   */
  function CheckFirstRequest(ctx: Option<Context>, faults: Faults): Check
  {
    match ctx
    case None => Check(true, ctx, [])
    case Some(c) =>
      if faults.readFault.Some? then Check(true, ctx, [FirstRequestCheckFailure(faults.readFault.value)])
      else if !MarkerAbsent(c.items) then Check(false, ctx, [])
      else
        var added := AddItem(c.items, EndRequestCallFlag, BoolItem(true), faults.addFault);
        match added.outcome
        case Pass => Check(true, Some(c.(items := added.items)), [])
        case Fail(detail) => Check(true, ctx, [FirstRequestCheckFailure(detail)])
  }

  /**
   * Fail-open: the check answers "not first" only when the marker reads as
   * non-null without a fault; it adds the marker at most once, touches no
   * other entry, and logs at most one failure, after which it answers "first".
   */
  lemma FirstRequestCheckFailsOpen(ctx: Option<Context>, faults: Faults, r: Check)
    requires r == CheckFirstRequest(ctx, faults)
    ensures !r.first <==> ctx.Some? && faults.readFault.None? && !MarkerAbsent(ctx.value.items)
    ensures ctx.None? ==> r.first && r.ctx.None? && r.diagnostics == []
    ensures r.ctx.Some? <==> ctx.Some?
    ensures ctx.Some? ==> r.ctx.value.url == ctx.value.url
    ensures ctx.Some? ==>
      (r.ctx.value.items == ctx.value.items ||
       (EndRequestCallFlag !in ctx.value.items &&
        r.ctx.value.items == ctx.value.items[EndRequestCallFlag := BoolItem(true)]))
    ensures ctx.Some? && r.first && r.diagnostics == [] ==> !MarkerAbsent(r.ctx.value.items)
    ensures |r.diagnostics| <= 1
    ensures forall e :: e in r.diagnostics ==> e.FirstRequestCheckFailure?
    ensures r.diagnostics != [] ==> r.first && r.diagnostics[0].FirstRequestCheckFailure? && r.ctx == ctx
    ensures ctx.Some? && faults.readFault.Some? ==> r.diagnostics == [FirstRequestCheckFailure(faults.readFault.value)]
    ensures ctx.Some? && faults.readFault.None? && EndRequestCallFlag !in ctx.value.items && faults.addFault.Some? ==>
      r == Check(true, ctx, [FirstRequestCheckFailure(faults.addFault.value)])
    ensures ctx.Some? && faults.readFault.None? && MarkerHeldNull(ctx.value.items) ==>
      r == Check(true, ctx, [FirstRequestCheckFailure(DuplicateKeyDetail)])
  {
  }

  /** OnBeginRequest: when enabled, the trace and then exactly one OnBegin; when disabled, nothing. */
  function BeginRequestEvents(enabled: bool, verbose: bool, ctx: Option<Context>, faults: Faults): seq<Event>
  {
    if !enabled then []
    else TraceCallbackEvents(verbose, BeginCallbackName, ctx, faults.urlFault) + [OnBegin]
  }

  /** A begin call writes nothing when disabled, else trace events and then OnBegin last. */
  lemma BeginRequestEndsWithOnBegin(enabled: bool, verbose: bool, ctx: Option<Context>, faults: Faults, r: seq<Event>)
    requires r == BeginRequestEvents(enabled, verbose, ctx, faults)
    ensures !enabled ==> r == []
    ensures enabled ==> |r| >= 1 && r[|r| - 1] == OnBegin
    ensures forall i :: 0 <= i < |r| - 1 ==> IsTrace(r[i])
  {
    if enabled {
      TraceCallbackAtMostOnce(verbose, BeginCallbackName, ctx, faults.urlFault, r[..|r| - 1]);
    }
  }

  /** What an end call reports once the marker check has answered. */
  function EndOutcome(first: bool): seq<Event>
  {
    if first then [OnError, OnEnd] else [RequestFiltered]
  }

  datatype EndResult = EndResult(ctx: Option<Context>, events: seq<Event>)

  /**
   * OnEndRequest: when enabled, the trace, the marker check's diagnostic, and
   * then either OnError immediately followed by OnEnd (first end call) or
   * RequestFiltered (a repeated one). When disabled, nothing at all.
   */
  function EndRequestStep(enabled: bool, verbose: bool, ctx: Option<Context>, faults: Faults): EndResult
  {
    if !enabled then EndResult(ctx, [])
    else
      var trace := TraceCallbackEvents(verbose, EndCallbackName, ctx, faults.urlFault);
      var check := CheckFirstRequest(ctx, faults);
      EndResult(check.ctx, trace + check.diagnostics + EndOutcome(check.first))
  }

  /**
   * An enabled end call ends its events with OnError then OnEnd when the check
   * answers "first" and with RequestFiltered otherwise; a disabled one changes
   * nothing.
   */
  lemma EndRequestReportsOnce(enabled: bool, verbose: bool, ctx: Option<Context>, faults: Faults, r: EndResult)
    requires r == EndRequestStep(enabled, verbose, ctx, faults)
    ensures !enabled ==> r == EndResult(ctx, [])
    ensures r.ctx.Some? <==> ctx.Some?
    ensures enabled ==> r.ctx == CheckFirstRequest(ctx, faults).ctx
    ensures enabled ==> |r.events| >= 1
    ensures enabled && CheckFirstRequest(ctx, faults).first ==>
      |r.events| >= 2 && r.events[|r.events| - 2..] == [OnError, OnEnd]
    ensures enabled && !CheckFirstRequest(ctx, faults).first ==> r.events[|r.events| - 1] == RequestFiltered
  {
    FirstRequestCheckFailsOpen(ctx, faults, CheckFirstRequest(ctx, faults));
  }

  // ---------------------------------------------------------------------------
  // Histories of host calls
  // ---------------------------------------------------------------------------

  type RequestId = nat

  /** A call the host makes on the module; requests are told apart by id. */
  datatype HostCall =
    | Init(registration: Registration)
    | BeginRequest(request: RequestId, verbose: bool, faults: Faults)
    | EndRequest(request: RequestId, verbose: bool, faults: Faults)

  /** The module's flag, the live request contexts and the event log. */
  datatype State = State(enabled: bool, requests: map<RequestId, Context>, events: seq<Event>)

  /** The context a callback for the request sees: a request the host has no context for reads as null. */
  function ContextOf(s: State, id: RequestId): (c: Option<Context>)
    ensures c.Some? <==> id in s.requests
  {
    if id in s.requests then Some(s.requests[id]) else None
  }

  /** The state right after construction, with the host's live requests. */
  function Initial(bootstrap: Outcome, requests: map<RequestId, Context>): (s: State)
    ensures s.enabled <==> bootstrap.Pass?
    ensures s.requests == requests
    ensures s.events == Construct(bootstrap).events
  {
    var c := Construct(bootstrap);
    State(c.enabled, requests, c.events)
  }

  /** One host call. */
  function Step(s: State, call: HostCall): State
  {
    match call
    case Init(registration) =>
      var r := InitStep(s.enabled, registration);
      s.(enabled := r.enabled, events := s.events + r.events)
    case BeginRequest(id, verbose, faults) =>
      s.(events := s.events + BeginRequestEvents(s.enabled, verbose, ContextOf(s, id), faults))
    case EndRequest(id, verbose, faults) =>
      var r := EndRequestStep(s.enabled, verbose, ContextOf(s, id), faults);
      s.(requests := if r.ctx.Some? then s.requests[id := r.ctx.value] else s.requests,
         events := s.events + r.events)
  }

  /**
   * One call never re-enables the module, does nothing once it is disabled,
   * only appends to the log, keeps the set of requests, and touches no
   * request but the one an end call is for.
   */
  lemma StepMonotoneAndIsolated(s: State, call: HostCall, t: State)
    requires t == Step(s, call)
    ensures t.enabled ==> s.enabled
    ensures !s.enabled ==> t == s
    ensures |s.events| <= |t.events| && t.events[..|s.events|] == s.events
    ensures t.requests.Keys == s.requests.Keys
    ensures forall q :: q in s.requests && (!call.EndRequest? || q != call.request) ==> t.requests[q] == s.requests[q]
    ensures !call.Init? ==> t.enabled == s.enabled
  {
    if call.EndRequest? {
      EndRequestReportsOnce(s.enabled, call.verbose, ContextOf(s, call.request), call.faults,
        EndRequestStep(s.enabled, call.verbose, ContextOf(s, call.request), call.faults));
    } else if call.Init? {
      InitSubscribesOrDisables(s.enabled, call.registration, InitStep(s.enabled, call.registration));
    }
  }

  /** A sequence of host calls, in order. */
  function Run(s: State, calls: seq<HostCall>): State
    decreases |calls|
  {
    if calls == [] then s else Run(Step(s, calls[0]), calls[1..])
  }

  /** Occurrences of an event in a log. */
  function Count(log: seq<Event>, e: Event): (n: nat)
    ensures n <= |log|

  {
    if log == [] then 0 else (if log[0] == e then 1 else 0) + Count(log[1..], e)
  }

  /** The log with the verbose trace removed. */
  function WithoutTraces(log: seq<Event>): (r: seq<Event>)
    ensures |r| <= |log|
  {
    if log == [] then []
    else (if IsTrace(log[0]) then [] else [log[0]]) + WithoutTraces(log[1..])
  }

  /** What the module reports about a request's lifecycle: publisher notifications and RequestFiltered. */
  predicate IsOutcome(e: Event)
  {
    IsPublisherEvent(e) || e.RequestFiltered?
  }

  /** The log restricted to lifecycle reports, in order. */
  function Outcomes(log: seq<Event>): (r: seq<Event>)
    ensures |r| <= |log|
  {
    if log == [] then []
    else (if IsOutcome(log[0]) then [log[0]] else []) + Outcomes(log[1..])
  }

  /** n RequestFiltered events. */
  function Filtered(n: nat): (r: seq<Event>)
    ensures |r| == n
  {
    if n == 0 then [] else [RequestFiltered] + Filtered(n - 1)
  }

  /** The reports of n end calls in a row: each is an OnError/OnEnd pair or a RequestFiltered. */
  predicate PerCallOutcomes(o: seq<Event>, n: nat)
    decreases n
  {
    if n == 0 then o == []
    else
      (|o| >= 2 && o[..2] == [OnError, OnEnd] && PerCallOutcomes(o[2..], n - 1)) ||
      (|o| >= 1 && o[0] == RequestFiltered && PerCallOutcomes(o[1..], n - 1))
  }

  /** Every OnError in the log is immediately followed by OnEnd. */
  predicate ErrorThenEnd(log: seq<Event>)
  {
    forall i :: 0 <= i < |log| && log[i] == OnError ==> i + 1 < |log| && log[i + 1] == OnEnd
  }

  /** Every call is an end call for the one request. */
  predicate EndCallsOn(calls: seq<HostCall>, id: RequestId)
  {
    forall i :: 0 <= i < |calls| ==> calls[i].EndRequest? && calls[i].request == id
  }

  /** No call throws while the marker is read or added. */
  predicate NoMarkerFaults(calls: seq<HostCall>)
  {
    forall i :: 0 <= i < |calls| && !calls[i].Init? ==>
      calls[i].faults.readFault.None? && calls[i].faults.addFault.None?
  }

  // ---------------------------------------------------------------------------
  // Lemmas about logs
  // ---------------------------------------------------------------------------

  lemma {:induction false} CountAppend(a: seq<Event>, b: seq<Event>, e: Event)
    ensures Count(a + b, e) == Count(a, e) + Count(b, e)
  {
    if a != [] {
      assert (a + b)[0] == a[0];
      assert (a + b)[1..] == a[1..] + b;
      CountAppend(a[1..], b, e);
    } else {
      assert a + b == b;
    }
  }

  lemma {:induction false} WithoutTracesAppend(a: seq<Event>, b: seq<Event>)
    ensures WithoutTraces(a + b) == WithoutTraces(a) + WithoutTraces(b)
  {
    if a != [] {
      assert (a + b)[0] == a[0];
      assert (a + b)[1..] == a[1..] + b;
      WithoutTracesAppend(a[1..], b);
    } else {
      assert a + b == b;
    }
  }

  lemma WithoutTracesOfTraces(a: seq<Event>)
    requires forall e :: e in a ==> IsTrace(e)
    ensures WithoutTraces(a) == []
  {
  }

  lemma {:induction false} OutcomesAppend(a: seq<Event>, b: seq<Event>)
    ensures Outcomes(a + b) == Outcomes(a) + Outcomes(b)
  {
    if a != [] {
      assert (a + b)[0] == a[0];
      assert (a + b)[1..] == a[1..] + b;
      OutcomesAppend(a[1..], b);
    } else {
      assert a + b == b;
    }
  }

  lemma OutcomesOfNone(a: seq<Event>)
    requires forall e :: e in a ==> !IsOutcome(e)
    ensures Outcomes(a) == []
  {
  }

  lemma OutcomesOfOutcomes(a: seq<Event>)
    requires forall e :: e in a ==> IsOutcome(e)
    ensures Outcomes(a) == a
  {
  }

  lemma ErrorThenEndAppend(a: seq<Event>, b: seq<Event>)
    requires ErrorThenEnd(a) && ErrorThenEnd(b)
    ensures ErrorThenEnd(a + b)
  {
    forall i | 0 <= i < |a + b| && (a + b)[i] == OnError
      ensures i + 1 < |a + b| && (a + b)[i + 1] == OnEnd
    {
      if i < |a| {
        assert a[i] == OnError;
      } else {
        assert b[i - |a|] == OnError;
      }
    }
  }

  /** n end-call reports hold exactly as many OnError as OnEnd, and one OnError or RequestFiltered per call. */
  lemma {:induction false} PerCallOutcomesCounts(o: seq<Event>, n: nat)
    requires PerCallOutcomes(o, n)
    ensures Count(o, OnError) + Count(o, RequestFiltered) == n
    ensures Count(o, OnError) == Count(o, OnEnd)
    ensures Count(o, OnBegin) == 0
    decreases n
  {
    if n > 0 {
      if |o| >= 2 && o[..2] == [OnError, OnEnd] && PerCallOutcomes(o[2..], n - 1) {
        PerCallOutcomesCounts(o[2..], n - 1);
        assert o == [OnError, OnEnd] + o[2..];
        CountAppend([OnError, OnEnd], o[2..], OnError);
        CountAppend([OnError, OnEnd], o[2..], OnEnd);
        CountAppend([OnError, OnEnd], o[2..], RequestFiltered);
        CountAppend([OnError, OnEnd], o[2..], OnBegin);
      } else {
        PerCallOutcomesCounts(o[1..], n - 1);
        assert o == [RequestFiltered] + o[1..];
        CountAppend([RequestFiltered], o[1..], OnError);
        CountAppend([RequestFiltered], o[1..], OnEnd);
        CountAppend([RequestFiltered], o[1..], RequestFiltered);
        CountAppend([RequestFiltered], o[1..], OnBegin);
      }
    }
  }

  /** Reports of the form "one pair, then k filtered" hold one OnError, one OnEnd and k RequestFiltered. */
  lemma {:induction false} PairThenFilteredCounts(k: nat)
    ensures Count([OnError, OnEnd] + Filtered(k), OnError) == 1
    ensures Count([OnError, OnEnd] + Filtered(k), OnEnd) == 1
    ensures Count([OnError, OnEnd] + Filtered(k), RequestFiltered) == k
    ensures Count([OnError, OnEnd] + Filtered(k), OnBegin) == 0
  {
    FilteredIsPerCall(k);
    assert PerCallOutcomes([OnError, OnEnd] + Filtered(k), k + 1) by {
      assert ([OnError, OnEnd] + Filtered(k))[2..] == Filtered(k);
    }
    PerCallOutcomesCounts([OnError, OnEnd] + Filtered(k), k + 1);
    CountAppend([OnError, OnEnd], Filtered(k), OnError);
    FilteredCount(k);
    CountAppend([OnError, OnEnd], Filtered(k), RequestFiltered);
  }

  lemma {:induction false} FilteredIsPerCall(k: nat)
    ensures PerCallOutcomes(Filtered(k), k)
  {
    if k > 0 {
      FilteredIsPerCall(k - 1);
      assert Filtered(k)[1..] == Filtered(k - 1);
    }
  }

  lemma {:induction false} FilteredCount(k: nat)
    ensures Count(Filtered(k), OnError) == 0
  {
    if k > 0 {
      FilteredCount(k - 1);
      assert Filtered(k)[1..] == Filtered(k - 1);
    }
  }

  /** The reports of an end call's appended events: the trace and diagnostics report nothing. */
  lemma OutcomesOfEnd(added: seq<Event>, trace: seq<Event>, diagnostics: seq<Event>, first: bool)
    requires added == trace + diagnostics + EndOutcome(first)
    requires forall e :: e in trace ==> IsTrace(e)
    requires forall e :: e in diagnostics ==> e.FirstRequestCheckFailure?
    ensures Outcomes(added) == EndOutcome(first)
  {
    OutcomesOfNone(trace + diagnostics);
    OutcomesAppend(trace + diagnostics, EndOutcome(first));
    OutcomesOfOutcomes(EndOutcome(first));
  }

  /** An end call's appended events keep OnError and OnEnd together. */
  lemma ErrorThenEndOfEnd(added: seq<Event>, trace: seq<Event>, diagnostics: seq<Event>, first: bool)
    requires added == trace + diagnostics + EndOutcome(first)
    requires forall e :: e in trace ==> IsTrace(e)
    requires forall e :: e in diagnostics ==> e.FirstRequestCheckFailure?
    ensures ErrorThenEnd(added)
  {
    assert forall i :: 0 <= i < |trace + diagnostics| ==> (trace + diagnostics)[i] in trace + diagnostics;
    ErrorThenEndAppend(trace + diagnostics, EndOutcome(first));
  }

  /** Two logs that differ only in a trace part are equal once traces are removed. */
  lemma EqualModuloTraces(a1: seq<Event>, a2: seq<Event>, t1: seq<Event>, t2: seq<Event>, d: seq<Event>, o: seq<Event>)
    requires a1 == t1 + d + o && a2 == t2 + d + o
    requires forall e :: e in t1 ==> IsTrace(e)
    requires forall e :: e in t2 ==> IsTrace(e)
    ensures WithoutTraces(a1) == WithoutTraces(a2)
  {
    WithoutTracesOfTraces(t1);
    WithoutTracesOfTraces(t2);
    WithoutTracesAppend(t1 + d, o);
    WithoutTracesAppend(t2 + d, o);
    WithoutTracesAppend(t1, d);
    WithoutTracesAppend(t2, d);
  }

  /** A log whose reports are "one pair, then k filtered" holds one OnError, one OnEnd and k RequestFiltered. */
  lemma CountsOfPairThenFiltered(a: seq<Event>, k: nat)
    requires Outcomes(a) == [OnError, OnEnd] + Filtered(k)
    ensures Count(a, OnError) == 1 && Count(a, OnEnd) == 1
    ensures Count(a, RequestFiltered) == k && Count(a, OnBegin) == 0
  {
    PairThenFilteredCounts(k);
    OutcomesKeepsCount(a, OnError);
    OutcomesKeepsCount(a, OnEnd);
    OutcomesKeepsCount(a, RequestFiltered);
    OutcomesKeepsCount(a, OnBegin);
  }

  /** A log whose reports are n end-call reports holds the counts those reports hold. */
  lemma CountsOfPerCall(a: seq<Event>, n: nat)
    requires PerCallOutcomes(Outcomes(a), n)
    ensures Count(a, OnError) + Count(a, RequestFiltered) == n
    ensures Count(a, OnError) == Count(a, OnEnd)
    ensures Count(a, OnBegin) == 0
  {
    PerCallOutcomesCounts(Outcomes(a), n);
    OutcomesKeepsCount(a, OnError);
    OutcomesKeepsCount(a, OnEnd);
    OutcomesKeepsCount(a, RequestFiltered);
    OutcomesKeepsCount(a, OnBegin);
  }

  /** Restricting a log to its reports does not change how often a report occurs. */
  lemma {:induction false} OutcomesKeepsCount(a: seq<Event>, e: Event)
    requires IsOutcome(e)
    ensures Count(Outcomes(a), e) == Count(a, e)
  {
    if a != [] {
      OutcomesKeepsCount(a[1..], e);
      CountAppend(if IsOutcome(a[0]) then [a[0]] else [], Outcomes(a[1..]), e);
    }
  }

  // ---------------------------------------------------------------------------
  // Lemmas about single steps
  // ---------------------------------------------------------------------------

  /** The log of a step is the old log followed by what the step appended. */
  lemma StepSplit(s: State, call: HostCall)
    ensures Step(s, call).events == s.events + Step(s, call).events[|s.events|..]
  {
    var t := Step(s, call);
    assert t.events == t.events[..|s.events|] + t.events[|s.events|..];
  }

  /** What an enabled end call appends to the log, and what it does to the requests. */
  lemma EndStepShape(s: State, call: HostCall)
    requires s.enabled && call.EndRequest?
    ensures var ctx := ContextOf(s, call.request);
      var check := CheckFirstRequest(ctx, call.faults);
      Step(s, call).events[|s.events|..] ==
        TraceCallbackEvents(call.verbose, EndCallbackName, ctx, call.faults.urlFault) + check.diagnostics +
        EndOutcome(check.first) &&
      Step(s, call).requests == (if check.ctx.Some? then s.requests[call.request := check.ctx.value] else s.requests)
  {
    var ctx := ContextOf(s, call.request);
    var r := EndRequestStep(s.enabled, call.verbose, ctx, call.faults);
    assert Step(s, call).events == s.events + r.events;
    assert (s.events + r.events)[|s.events|..] == r.events;
  }

  /** What an enabled begin call appends to the log; it leaves every request alone. */
  lemma BeginStepShape(s: State, call: HostCall)
    requires s.enabled && call.BeginRequest?
    ensures Step(s, call).events[|s.events|..] ==
      TraceCallbackEvents(call.verbose, BeginCallbackName, ContextOf(s, call.request), call.faults.urlFault) + [OnBegin]
    ensures Step(s, call).requests == s.requests
  {
    var r := BeginRequestEvents(s.enabled, call.verbose, ContextOf(s, call.request), call.faults);
    assert Step(s, call).events == s.events + r;
    assert (s.events + r)[|s.events|..] == r;
  }

  lemma EndStepOutcomes(s: State, call: HostCall)
    requires s.enabled && call.EndRequest?
    ensures Outcomes(Step(s, call).events[|s.events|..]) ==
      EndOutcome(CheckFirstRequest(ContextOf(s, call.request), call.faults).first)
  {
    var ctx := ContextOf(s, call.request);
    var check := CheckFirstRequest(ctx, call.faults);
    EndStepShape(s, call);
    OutcomesOfEnd(Step(s, call).events[|s.events|..],
      TraceCallbackEvents(call.verbose, EndCallbackName, ctx, call.faults.urlFault), check.diagnostics, check.first);
  }

  /** A filtered end call leaves every request as it was. */
  lemma EndStepFilteredKeepsRequests(s: State, call: HostCall)
    requires s.enabled && call.EndRequest?
    requires !CheckFirstRequest(ContextOf(s, call.request), call.faults).first
    ensures Step(s, call).requests == s.requests
  {
    EndStepShape(s, call);
    assert s.requests[call.request := s.requests[call.request]] == s.requests;
  }

  /**
   * The first end call of a request whose Items lack the marker, when neither
   * reading nor adding it throws: the marker is added and the trace is
   * followed by OnError and OnEnd.
   */
  lemma FirstEndCall(s: State, id: RequestId, verbose: bool, faults: Faults)
    requires s.enabled && id in s.requests && EndRequestCallFlag !in s.requests[id].items
    requires faults.readFault.None? && faults.addFault.None?
    ensures var c := s.requests[id];
      Step(s, EndRequest(id, verbose, faults)) ==
        s.(requests := s.requests[id := c.(items := c.items[EndRequestCallFlag := BoolItem(true)])],
           events := s.events + TraceCallbackEvents(verbose, EndCallbackName, Some(c), faults.urlFault) + [OnError, OnEnd])
  {
    var c := s.requests[id];
    var marked := c.(items := c.items[EndRequestCallFlag := BoolItem(true)]);
    var trace := TraceCallbackEvents(verbose, EndCallbackName, Some(c), faults.urlFault);
    assert CheckFirstRequest(Some(c), faults) == Check(true, Some(marked), []);
    assert EndRequestStep(true, verbose, Some(c), faults) == EndResult(Some(marked), trace + [] + [OnError, OnEnd]);
    assert s.events + (trace + [] + [OnError, OnEnd]) == s.events + trace + [OnError, OnEnd];
  }

  /**
   * A repeated end call: the marker reads as non-null, so the requests stay
   * as they are and the trace is followed by RequestFiltered alone.
   */
  lemma RepeatedEndCall(s: State, id: RequestId, verbose: bool, faults: Faults)
    requires s.enabled && id in s.requests && !MarkerAbsent(s.requests[id].items) && faults.readFault.None?
    ensures Step(s, EndRequest(id, verbose, faults)) ==
      s.(events := s.events + TraceCallbackEvents(verbose, EndCallbackName, Some(s.requests[id]), faults.urlFault) + [RequestFiltered])
  {
    var c := s.requests[id];
    var trace := TraceCallbackEvents(verbose, EndCallbackName, Some(c), faults.urlFault);
    assert CheckFirstRequest(Some(c), faults) == Check(false, Some(c), []);
    assert EndRequestStep(true, verbose, Some(c), faults) == EndResult(Some(c), trace + [] + [RequestFiltered]);
    assert s.events + (trace + [] + [RequestFiltered]) == s.events + trace + [RequestFiltered];
    assert s.requests[id := c] == s.requests;
  }

  /**
   * An end call whose marker read throws: the failure is logged, the check
   * answers "first" and the pair is reported, whatever Items holds.
   */
  lemma ReadFailureEndCall(s: State, id: RequestId, verbose: bool, faults: Faults)
    requires s.enabled && id in s.requests && faults.readFault.Some?
    ensures Step(s, EndRequest(id, verbose, faults)) ==
      s.(events := s.events + TraceCallbackEvents(verbose, EndCallbackName, Some(s.requests[id]), faults.urlFault) +
                   [FirstRequestCheckFailure(faults.readFault.value), OnError, OnEnd])
  {
    var c := s.requests[id];
    var trace := TraceCallbackEvents(verbose, EndCallbackName, Some(c), faults.urlFault);
    var d := [FirstRequestCheckFailure(faults.readFault.value)];
    assert CheckFirstRequest(Some(c), faults) == Check(true, Some(c), d);
    assert EndRequestStep(true, verbose, Some(c), faults) == EndResult(Some(c), trace + d + [OnError, OnEnd]);
    assert s.events + (trace + d + [OnError, OnEnd]) == s.events + trace + (d + [OnError, OnEnd]);
    assert s.requests[id := c] == s.requests;
  }

  /**
   * An end call for a request whose Items hold the marker key with a null
   * value: the marker reads as absent, but adding it throws because the key
   * exists, so the failure is logged and the pair is reported. The requests
   * stay as they were, so every later end call meets the same null entry and
   * reports the pair again.
   */
  lemma NullMarkerEndCall(s: State, id: RequestId, verbose: bool, faults: Faults)
    requires s.enabled && id in s.requests && faults.readFault.None?
    requires MarkerHeldNull(s.requests[id].items)
    ensures Step(s, EndRequest(id, verbose, faults)) ==
      s.(events := s.events + TraceCallbackEvents(verbose, EndCallbackName, Some(s.requests[id]), faults.urlFault) +
                   [FirstRequestCheckFailure(DuplicateKeyDetail), OnError, OnEnd])
  {
    var c := s.requests[id];
    var trace := TraceCallbackEvents(verbose, EndCallbackName, Some(c), faults.urlFault);
    var d := [FirstRequestCheckFailure(DuplicateKeyDetail)];
    assert CheckFirstRequest(Some(c), faults) == Check(true, Some(c), d);
    assert EndRequestStep(true, verbose, Some(c), faults) == EndResult(Some(c), trace + d + [OnError, OnEnd]);
    assert s.events + (trace + d + [OnError, OnEnd]) == s.events + trace + (d + [OnError, OnEnd]);
    assert s.requests[id := c] == s.requests;
  }

  /** The events one call appends keep every OnError paired with the OnEnd after it. */
  lemma StepKeepsErrorThenEnd(s: State, call: HostCall)
    requires ErrorThenEnd(s.events)
    ensures ErrorThenEnd(Step(s, call).events)
  {
    var added := Step(s, call).events[|s.events|..];
    StepSplit(s, call);
    if s.enabled && call.EndRequest? {
      var ctx := ContextOf(s, call.request);
      var check := CheckFirstRequest(ctx, call.faults);
      EndStepShape(s, call);
      ErrorThenEndOfEnd(added, TraceCallbackEvents(call.verbose, EndCallbackName, ctx, call.faults.urlFault),
        check.diagnostics, check.first);
    } else if s.enabled && call.BeginRequest? {
      BeginStepShape(s, call);
      assert forall i :: 0 <= i < |added| ==> added[i] != OnError;
    } else if s.enabled {
      assert Step(s, call).events == s.events + InitStep(s.enabled, call.registration).events;
    }
    ErrorThenEndAppend(s.events, added);
  }

  /** An enabled begin call publishes exactly one OnBegin, reports nothing else, and leaves every request alone. */
  lemma BeginRequestPublishesOnce(s: State, call: HostCall)
    requires s.enabled && call.BeginRequest?
    ensures Step(s, call).requests == s.requests
    ensures Outcomes(Step(s, call).events[|s.events|..]) == [OnBegin]
    ensures WithoutTraces(Step(s, call).events[|s.events|..]) == [OnBegin]
  {
    var trace := TraceCallbackEvents(call.verbose, BeginCallbackName, ContextOf(s, call.request), call.faults.urlFault);
    BeginStepShape(s, call);
    OutcomesAppend(trace, [OnBegin]);
    OutcomesOfNone(trace);
    WithoutTracesAppend(trace, [OnBegin]);
    WithoutTracesOfTraces(trace);
  }

  /** A request without a context gets an OnError/OnEnd pair from every end call, and no diagnostic. */
  lemma NoContextEndRequestPublishes(s: State, call: HostCall)
    requires s.enabled && call.EndRequest? && call.request !in s.requests
    ensures Step(s, call).requests == s.requests
    ensures WithoutTraces(Step(s, call).events[|s.events|..]) == [OnError, OnEnd]
  {
    var ctx := ContextOf(s, call.request);
    var trace := TraceCallbackEvents(call.verbose, EndCallbackName, ctx, call.faults.urlFault);
    EndStepShape(s, call);
    assert CheckFirstRequest(ctx, call.faults) == Check(true, None, []);
    assert Step(s, call).events[|s.events|..] == trace + [OnError, OnEnd];
    WithoutTracesAppend(trace, [OnError, OnEnd]);
    WithoutTracesOfTraces(trace);
  }

  /** Tracing in an end call: the verbose flag and the URL fault change the trace and nothing else. */
  lemma TracingDoesNotAffectEnd(s: State, c1: HostCall, c2: HostCall)
    requires s.enabled && c1.EndRequest? && c2.EndRequest? && c1.request == c2.request
    requires c1.faults.readFault == c2.faults.readFault && c1.faults.addFault == c2.faults.addFault
    ensures Step(s, c1).requests == Step(s, c2).requests
    ensures WithoutTraces(Step(s, c1).events[|s.events|..]) == WithoutTraces(Step(s, c2).events[|s.events|..])
  {
    var ctx := ContextOf(s, c1.request);
    var check := CheckFirstRequest(ctx, c1.faults);
    assert check == CheckFirstRequest(ctx, c2.faults);
    EndStepShape(s, c1);
    EndStepShape(s, c2);
    EqualModuloTraces(Step(s, c1).events[|s.events|..], Step(s, c2).events[|s.events|..],
      TraceCallbackEvents(c1.verbose, EndCallbackName, ctx, c1.faults.urlFault),
      TraceCallbackEvents(c2.verbose, EndCallbackName, ctx, c2.faults.urlFault),
      check.diagnostics, EndOutcome(check.first));
  }

  /** Tracing in a begin call: the verbose flag and the URL fault change the trace and nothing else. */
  lemma TracingDoesNotAffectBegin(s: State, c1: HostCall, c2: HostCall)
    requires s.enabled && c1.BeginRequest? && c2.BeginRequest?
    ensures WithoutTraces(Step(s, c1).events[|s.events|..]) == WithoutTraces(Step(s, c2).events[|s.events|..])
  {
    BeginRequestPublishesOnce(s, c1);
    BeginRequestPublishesOnce(s, c2);
  }

  /**
   * Tracing never decides anything: two callbacks that differ only in the
   * verbose flag and in whether the URL can be obtained leave the same flag,
   * the same requests and the same log apart from trace events.
   */
  lemma TracingDoesNotAffectLifecycle(s: State, c1: HostCall, c2: HostCall)
    requires !c1.Init? && !c2.Init?
    requires c1.EndRequest? == c2.EndRequest? && c1.request == c2.request
    requires c1.faults.readFault == c2.faults.readFault && c1.faults.addFault == c2.faults.addFault
    ensures Step(s, c1).enabled == Step(s, c2).enabled
    ensures Step(s, c1).requests == Step(s, c2).requests
    ensures WithoutTraces(Step(s, c1).events) == WithoutTraces(Step(s, c2).events)
  {
    if s.enabled {
      if c1.EndRequest? {
        TracingDoesNotAffectEnd(s, c1, c2);
      } else {
        TracingDoesNotAffectBegin(s, c1, c2);
        BeginStepShape(s, c1);
        BeginStepShape(s, c2);
      }
      StepSplit(s, c1);
      StepSplit(s, c2);
      WithoutTracesAppend(s.events, Step(s, c1).events[|s.events|..]);
      WithoutTracesAppend(s.events, Step(s, c2).events[|s.events|..]);
    }
  }

  // ---------------------------------------------------------------------------
  // Lemmas about histories
  // ---------------------------------------------------------------------------

  /** Once disabled, the module stays disabled for the rest of any history. */
  lemma {:induction false} RunFlagMonotone(s: State, calls: seq<HostCall>)
    ensures Run(s, calls).enabled ==> s.enabled
    decreases |calls|
  {
    if calls != [] {
      RunFlagMonotone(Step(s, calls[0]), calls[1..]);
    }
  }

  /** A disabled module writes nothing (no publisher event, no trace) and touches no request. */
  lemma {:induction false} RunDisabledIsSilent(s: State, calls: seq<HostCall>)
    requires !s.enabled
    ensures Run(s, calls) == s
    decreases |calls|
  {
    if calls != [] {
      RunDisabledIsSilent(Step(s, calls[0]), calls[1..]);
    }
  }

  /** A module whose bootstrap failed logs one initialization event and then nothing, whatever the host does. */
  lemma BootstrapFailureSilencesModule(detail: string, requests: map<RequestId, Context>, calls: seq<HostCall>)
    ensures Run(Initial(Fail(detail), requests), calls) ==
      State(false, requests, [WebModuleInitializationExceptionEvent(detail)])
  {
    RunDisabledIsSilent(Initial(Fail(detail), requests), calls);
  }

  /** A failed registration disables the module after one initialization event, and the rest of the history is silent. */
  lemma RegistrationFailureSilencesModule(s: State, registration: Registration, calls: seq<HostCall>)
    requires s.enabled && !registration.Registered?
    ensures Run(s, [Init(registration)] + calls) ==
      s.(enabled := false, events := s.events + [WebModuleInitializationExceptionEvent(registration.detail)])
  {
    var t := Step(s, Init(registration));
    assert ([Init(registration)] + calls)[1..] == calls;
    RunDisabledIsSilent(t, calls);
  }

  /** Events are only ever appended. */
  lemma {:induction false} RunAppendsOnly(s: State, calls: seq<HostCall>)
    ensures |s.events| <= |Run(s, calls).events|
    ensures Run(s, calls).events[..|s.events|] == s.events
    decreases |calls|
  {
    if calls != [] {
      var t := Step(s, calls[0]);
      RunAppendsOnly(t, calls[1..]);
      assert Run(s, calls).events[..|s.events|] == Run(t, calls[1..]).events[..|t.events|][..|s.events|];
    }
  }

  /** In any history, every OnError is immediately followed by OnEnd. */
  lemma {:induction false} RunKeepsErrorThenEnd(s: State, calls: seq<HostCall>)
    requires ErrorThenEnd(s.events)
    ensures ErrorThenEnd(Run(s, calls).events)
    decreases |calls|
  {
    if calls != [] {
      StepKeepsErrorThenEnd(s, calls[0]);
      RunKeepsErrorThenEnd(Step(s, calls[0]), calls[1..]);
    }
  }

  /** The events a run appends to the log. */
  function Appended(s: State, calls: seq<HostCall>): (r: seq<Event>)
    ensures s.events + r == Run(s, calls).events
  {
    RunAppendsOnly(s, calls);
    Run(s, calls).events[|s.events|..]
  }

  lemma AppendedStep(s: State, calls: seq<HostCall>)
    requires calls != []
    ensures Appended(s, calls) == Step(s, calls[0]).events[|s.events|..] + Appended(Step(s, calls[0]), calls[1..])
  {
    var t := Step(s, calls[0]);
    var d := t.events[|s.events|..];
    var rest := Appended(t, calls[1..]);
    assert Run(s, calls) == Run(t, calls[1..]);
    StepSplit(s, calls[0]);
    assert s.events + Appended(s, calls) == s.events + (d + rest);
    assert Appended(s, calls) == (s.events + Appended(s, calls))[|s.events|..];
    assert d + rest == (s.events + (d + rest))[|s.events|..];
  }

  /** The reports of a run are those of its first call followed by those of the rest. */
  lemma OutcomesAfterStep(s: State, calls: seq<HostCall>)
    requires calls != []
    ensures Outcomes(Appended(s, calls)) ==
      Outcomes(Step(s, calls[0]).events[|s.events|..]) + Outcomes(Appended(Step(s, calls[0]), calls[1..]))
  {
    AppendedStep(s, calls);
    OutcomesAppend(Step(s, calls[0]).events[|s.events|..], Appended(Step(s, calls[0]), calls[1..]));
  }

  lemma EndCallsOnTail(calls: seq<HostCall>, id: RequestId)
    requires calls != [] && EndCallsOn(calls, id) && NoMarkerFaults(calls)
    ensures EndCallsOn(calls[1..], id) && NoMarkerFaults(calls[1..])
  {
    assert forall i :: 0 <= i < |calls[1..]| ==> calls[1..][i] == calls[i + 1];
  }

  /** Once the marker is set, every further end call for the request is filtered. */
  lemma {:induction false} RepeatedEndRequestsFiltered(s: State, id: RequestId, calls: seq<HostCall>)
    requires s.enabled && id in s.requests && !MarkerAbsent(s.requests[id].items)
    requires EndCallsOn(calls, id) && NoMarkerFaults(calls)
    ensures Run(s, calls).enabled && Run(s, calls).requests == s.requests
    ensures Outcomes(Appended(s, calls)) == Filtered(|calls|)
    decreases |calls|
  {
    if calls != [] {
      var t := Step(s, calls[0]);
      EndStepFilteredKeepsRequests(s, calls[0]);
      EndStepOutcomes(s, calls[0]);
      EndCallsOnTail(calls, id);
      RepeatedEndRequestsFiltered(t, id, calls[1..]);
      OutcomesAfterStep(s, calls);
      assert Run(s, calls) == Run(t, calls[1..]);
    } else {
      assert Appended(s, calls) == [];
    }
  }

  /**
   * Deduplication: N >= 1 end calls for one request, none of them failing on
   * the marker, report one OnError immediately followed by OnEnd and then
   * N - 1 RequestFiltered; afterwards the marker is set and nothing else in
   * the request's Items has changed.
   */
  lemma RepeatedEndRequestsPublishOnce(s: State, id: RequestId, calls: seq<HostCall>)
    requires s.enabled && id in s.requests && EndRequestCallFlag !in s.requests[id].items
    requires |calls| >= 1 && EndCallsOn(calls, id) && NoMarkerFaults(calls)
    ensures Outcomes(Appended(s, calls)) == [OnError, OnEnd] + Filtered(|calls| - 1)
    ensures id in Run(s, calls).requests
    ensures Run(s, calls).requests[id].items == s.requests[id].items[EndRequestCallFlag := BoolItem(true)]
  {
    var call := calls[0];
    assert call.EndRequest? && call.request == id;
    assert call.faults.readFault.None? && call.faults.addFault.None?;
    var t := Step(s, call);
    var marked := s.requests[id].items[EndRequestCallFlag := BoolItem(true)];
    assert CheckFirstRequest(ContextOf(s, id), call.faults) == Check(true, Some(s.requests[id].(items := marked)), []);
    EndStepShape(s, call);
    EndStepOutcomes(s, call);
    assert t.requests[id].items == marked;
    EndCallsOnTail(calls, id);
    RepeatedEndRequestsFiltered(t, id, calls[1..]);
    OutcomesAfterStep(s, calls);
  }

  /** The same, counted: exactly one OnError, one OnEnd, N - 1 RequestFiltered and no OnBegin. */
  lemma RepeatedEndRequestsCounts(s: State, id: RequestId, calls: seq<HostCall>)
    requires s.enabled && id in s.requests && EndRequestCallFlag !in s.requests[id].items
    requires |calls| >= 1 && EndCallsOn(calls, id) && NoMarkerFaults(calls)
    ensures Count(Appended(s, calls), OnError) == 1
    ensures Count(Appended(s, calls), OnEnd) == 1
    ensures Count(Appended(s, calls), RequestFiltered) == |calls| - 1
    ensures Count(Appended(s, calls), OnBegin) == 0
  {
    assert Outcomes(Appended(s, calls)) == [OnError, OnEnd] + Filtered(|calls| - 1) by {
      RepeatedEndRequestsPublishOnce(s, id, calls);
    }
    CountsOfPairThenFiltered(Appended(s, calls), |calls| - 1);
  }

  /**
   * Whatever fails, each enabled end call reports exactly one of an
   * OnError/OnEnd pair and a RequestFiltered, in call order.
   */
  lemma {:induction false} EndRequestsAccounted(s: State, calls: seq<HostCall>)
    requires s.enabled
    requires forall i :: 0 <= i < |calls| ==> calls[i].EndRequest?
    ensures PerCallOutcomes(Outcomes(Appended(s, calls)), |calls|)
    decreases |calls|
  {
    if calls != [] {
      var t := Step(s, calls[0]);
      var first := CheckFirstRequest(ContextOf(s, calls[0].request), calls[0].faults).first;
      EndStepOutcomes(s, calls[0]);
      assert forall i :: 0 <= i < |calls[1..]| ==> calls[1..][i] == calls[i + 1];
      EndRequestsAccounted(t, calls[1..]);
      OutcomesAfterStep(s, calls);
      var rest := Outcomes(Appended(t, calls[1..]));
      if first {
        assert ([OnError, OnEnd] + rest)[..2] == [OnError, OnEnd] && ([OnError, OnEnd] + rest)[2..] == rest;
      } else {
        assert ([RequestFiltered] + rest)[0] == RequestFiltered && ([RequestFiltered] + rest)[1..] == rest;
      }
    } else {
      assert Appended(s, calls) == [];
    }
  }

  /** The same, counted: as many OnEnd as OnError, one OnError or RequestFiltered per call, no OnBegin. */
  lemma EndRequestsCounts(s: State, calls: seq<HostCall>)
    requires s.enabled
    requires forall i :: 0 <= i < |calls| ==> calls[i].EndRequest?
    ensures Count(Appended(s, calls), OnError) + Count(Appended(s, calls), RequestFiltered) == |calls|
    ensures Count(Appended(s, calls), OnError) == Count(Appended(s, calls), OnEnd)
    ensures Count(Appended(s, calls), OnBegin) == 0
  {
    EndRequestsAccounted(s, calls);
    CountsOfPerCall(Appended(s, calls), |calls|);
  }

  /**
   * Fail-open: however the marker check fails, an enabled request whose marker
   * is not yet set (or that has no context at all) reports OnError and OnEnd
   * on its first end call.
   */
  lemma FailOpenPublishesEnd(s: State, id: RequestId, calls: seq<HostCall>)
    requires s.enabled && (id in s.requests ==> MarkerAbsent(s.requests[id].items))
    requires |calls| >= 1 && EndCallsOn(calls, id)
    ensures |Outcomes(Appended(s, calls))| >= 2
    ensures Outcomes(Appended(s, calls))[..2] == [OnError, OnEnd]
  {
    var call := calls[0];
    assert call.EndRequest? && call.request == id;
    assert CheckFirstRequest(ContextOf(s, id), call.faults).first;
    EndStepOutcomes(s, call);
    OutcomesAfterStep(s, calls);
  }
}
