/**
 * The host's side: construct the module, initialize it for the application,
 * then raise BeginRequest and EndRequest (possibly more than once, as a host
 * that raises the end event again would). The objects of module HttpModule
 * end in the state the history model of module Lifecycle predicts for the
 * same calls, and a few concrete requests show the resulting logs.
 */
module HostScenarios {
  import opened Wrappers
  import opened Lifecycle
  import opened HttpModule

  /**
   * The objects stand for the history state s: the module's flag and log are
   * the state's, and the application's context is request 0's (null when the
   * state has no context for it).
   */
  ghost predicate Mirrors(m: ApplicationInsightsHttpModule, app: HttpApplication, s: State)
    reads m, m.log, app, app.context
  {
    m.isEnabled == s.enabled && m.log.events == s.events &&
    s.requests.Keys <= {0} && app.View() == ContextOf(s, 0)
  }

  /** A host call about request 0 (Init is about none). */
  predicate OnRequestZero(call: HostCall)
  {
    call.Init? || call.request == 0
  }

  /**
   * The host makes one call: Init, or raises BeginRequest or EndRequest with
   * the verbose switch the call names. The objects then stand for the state
   * after the same call in the history model.
   */
  method Perform(m: ApplicationInsightsHttpModule, app: HttpApplication, ghost s: State, call: HostCall)
    requires Mirrors(m, app, s) && OnRequestZero(call)
    modifies m`isEnabled, app`beginRequest, app`endRequest, m.log, app.context
    ensures Mirrors(m, app, Step(s, call))
  {
    match call
    case Init(registration) =>
      m.Init(app, registration);
    case BeginRequest(_, verbose, faults) =>
      m.log.isVerboseEnabled := verbose;
      m.OnBeginRequest(app, faults);
    case EndRequest(_, verbose, faults) =>
      m.log.isVerboseEnabled := verbose;
      m.OnEndRequest(app, faults);
  }

  /** The host makes the calls in order; the objects end as the history model's Run. */
  method Serve(m: ApplicationInsightsHttpModule, app: HttpApplication, ghost s: State, calls: seq<HostCall>)
    requires Mirrors(m, app, s)
    requires forall i :: 0 <= i < |calls| ==> OnRequestZero(calls[i])
    modifies m`isEnabled, app`beginRequest, app`endRequest, m.log, app.context
    ensures Mirrors(m, app, Run(s, calls))
    decreases |calls|
  {
    if calls != [] {
      Perform(m, app, s, calls[0]);
      Serve(m, app, Step(s, calls[0]), calls[1..]);
    }
  }

  /**
   * Fresh objects for one request with the given Items and URL (or with no
   * context at all), driven through construction and then any calls about
   * that request: the log and the Items they end with are the history
   * model's.
   */
  method ServeRequest(bootstrap: Outcome, context: Option<Context>, calls: seq<HostCall>)
    returns (events: seq<Event>, finalContext: Option<Context>)
    requires forall i :: 0 <= i < |calls| ==> OnRequestZero(calls[i])
    ensures var s := Run(Initial(bootstrap, if context.Some? then map[0 := context.value] else map[]), calls);
      events == s.events && finalContext == ContextOf(s, 0)
  {
    var log := new EventLog(false);
    var httpContext: HttpContext? := null;
    if context.Some? {
      httpContext := new HttpContext(context.value.items, context.value.url);
    }
    var app := new HttpApplication(httpContext);
    var aiModule := new ApplicationInsightsHttpModule(log, bootstrap);
    ghost var s0 := Initial(bootstrap, if context.Some? then map[0 := context.value] else map[]);
    assert Mirrors(aiModule, app, s0);
    Serve(aiModule, app, s0, calls);
    events := log.events;
    finalContext := app.View();
  }

  /** A history that starts with a call whose step is known runs on from that step's state. */
  lemma RunThen(s: State, c: HostCall, rest: seq<HostCall>, t: State)
    requires Step(s, c) == t
    ensures Run(s, [c] + rest) == Run(t, rest)
  {
    assert ([c] + rest)[0] == c && ([c] + rest)[1..] == rest;
  }

  /** The calls of a request whose end event is raised twice, with no faults. */
  function TypicalCalls(verbose: bool): seq<HostCall>
  {
    [Init(Registered), BeginRequest(0, verbose, NoFaults), EndRequest(0, verbose, NoFaults), EndRequest(0, verbose, NoFaults)]
  }

  /**
   * A request on a healthy module with tracing off, whose end event is raised
   * twice: one OnBegin, one OnError/OnEnd pair, then one RequestFiltered, and
   * the marker is set on the request.
   */
  lemma TypicalHistory(url: Option<string>)
    ensures var s := Run(Initial(Pass, map[0 := Context(map[], url)]), TypicalCalls(false));
      s.events == [OnBegin, OnError, OnEnd, RequestFiltered] &&
      0 in s.requests && s.requests[0].items == map[EndRequestCallFlag := BoolItem(true)]
  {
    var b, e := BeginRequest(0, false, NoFaults), EndRequest(0, false, NoFaults);
    var m0 := map[0 := Context(map[], url)];
    var m1 := map[0 := Context(map[EndRequestCallFlag := BoolItem(true)], url)];
    var s0, s2, s3 := State(true, m0, []), State(true, m0, [OnBegin]), State(true, m1, [OnBegin, OnError, OnEnd]);
    var s4 := State(true, m1, [OnBegin, OnError, OnEnd, RequestFiltered]);
    assert Run(Initial(Pass, m0), TypicalCalls(false)) == Run(s0, [b, e, e]) by {
      assert TypicalCalls(false) == [Init(Registered)] + [b, e, e];
      RunThen(s0, Init(Registered), [b, e, e], s0);
    }
    assert Run(s0, [b, e, e]) == Run(s2, [e, e]) by {
      assert [b, e, e] == [b] + [e, e];
      RunThen(s0, b, [e, e], s2);
    }
    assert Run(s2, [e, e]) == Run(s3, [e]) by {
      assert [e, e] == [e] + [e];
      FirstEndCall(s2, 0, false, NoFaults);
      RunThen(s2, e, [e], s3);
    }
    assert Run(s3, [e]) == s4 by {
      assert [e] == [e] + [];
      RepeatedEndCall(s3, 0, false, NoFaults);
      RunThen(s3, e, [], s4);
    }
  }

  /** The same request served by the objects. */
  method TypicalRequest(url: Option<string>) returns (events: seq<Event>, finalContext: Option<Context>)
    ensures events == [OnBegin, OnError, OnEnd, RequestFiltered]
    ensures finalContext == Some(Context(map[EndRequestCallFlag := BoolItem(true)], url))
  {
    events, finalContext := ServeRequest(Pass, Some(Context(map[], url)), TypicalCalls(false));
    TypicalHistory(url);
  }

  /**
   * With verbose tracing on and no request context, nothing is traced and
   * nothing deduplicates the end calls: each reports OnError and OnEnd.
   */
  lemma WithoutContextHistory()
    ensures Run(Initial(Pass, map[]), TypicalCalls(true)).events == [OnBegin, OnError, OnEnd, OnError, OnEnd]
  {
    var b, e := BeginRequest(0, true, NoFaults), EndRequest(0, true, NoFaults);
    var s0, s2 := State(true, map[], []), State(true, map[], [OnBegin]);
    var s3 := State(true, map[], [OnBegin, OnError, OnEnd]);
    var s4 := State(true, map[], [OnBegin, OnError, OnEnd, OnError, OnEnd]);
    assert Run(Initial(Pass, map[]), TypicalCalls(true)) == Run(s0, [b, e, e]) by {
      assert TypicalCalls(true) == [Init(Registered)] + [b, e, e];
      RunThen(s0, Init(Registered), [b, e, e], s0);
    }
    assert Run(s0, [b, e, e]) == Run(s2, [e, e]) by {
      assert [b, e, e] == [b] + [e, e];
      RunThen(s0, b, [e, e], s2);
    }
    assert Run(s2, [e, e]) == Run(s3, [e]) by {
      assert [e, e] == [e] + [e];
      assert CheckFirstRequest(None, NoFaults) == Check(true, None, []);
      RunThen(s2, e, [e], s3);
    }
    assert Run(s3, [e]) == s4 by {
      assert [e] == [e] + [];
      assert CheckFirstRequest(None, NoFaults) == Check(true, None, []);
      RunThen(s3, e, [], s4);
    }
  }

  /** With verbose tracing on, a null URL is traced as the empty string before each report. */
  lemma NullUrlTraceHistory()
    ensures Run(Initial(Pass, map[0 := Context(map[], None)]), TypicalCalls(true)[..3]).events ==
      [WebModuleCallback(BeginCallbackName, ""), OnBegin, WebModuleCallback(EndCallbackName, ""), OnError, OnEnd]
  {
    var b, e := BeginRequest(0, true, NoFaults), EndRequest(0, true, NoFaults);
    var m0 := map[0 := Context(map[], None)];
    var m1 := map[0 := Context(map[EndRequestCallFlag := BoolItem(true)], None)];
    var s0, s2 := State(true, m0, []), State(true, m0, [WebModuleCallback(BeginCallbackName, ""), OnBegin]);
    var s3 := State(true, m1, [WebModuleCallback(BeginCallbackName, ""), OnBegin, WebModuleCallback(EndCallbackName, ""), OnError, OnEnd]);
    assert Run(Initial(Pass, m0), TypicalCalls(true)[..3]) == Run(s0, [b, e]) by {
      assert TypicalCalls(true)[..3] == [Init(Registered)] + [b, e];
      RunThen(s0, Init(Registered), [b, e], s0);
    }
    assert Run(s0, [b, e]) == Run(s2, [e]) by {
      assert [b, e] == [b] + [e];
      RunThen(s0, b, [e], s2);
    }
    assert Run(s2, [e]) == s3 by {
      assert [e] == [e] + [];
      FirstEndCall(s2, 0, true, NoFaults);
      RunThen(s2, e, [], s3);
    }
  }

  /**
   * A read failure on a repeated end call makes the check answer "first"
   * after logging it, so the pair is reported a second time.
   */
  lemma ReadFailureHistory(detail: string)
    ensures var s := Run(Initial(Pass, map[0 := Context(map[], None)]),
                         [Init(Registered), EndRequest(0, false, NoFaults), EndRequest(0, false, Faults(None, Some(detail), None))]);
      s.events == [OnError, OnEnd, FirstRequestCheckFailure(detail), OnError, OnEnd] &&
      0 in s.requests && s.requests[0].items == map[EndRequestCallFlag := BoolItem(true)]
  {
    var e, r := EndRequest(0, false, NoFaults), EndRequest(0, false, Faults(None, Some(detail), None));
    var marked := Context(map[EndRequestCallFlag := BoolItem(true)], None);
    var m0 := map[0 := Context(map[], None)];
    var s0, s2 := State(true, m0, []), State(true, map[0 := marked], [OnError, OnEnd]);
    var s3 := State(true, map[0 := marked], [OnError, OnEnd, FirstRequestCheckFailure(detail), OnError, OnEnd]);
    assert Run(Initial(Pass, m0), [Init(Registered), e, r]) == Run(s0, [e, r]) by {
      assert [Init(Registered), e, r] == [Init(Registered)] + [e, r];
      RunThen(s0, Init(Registered), [e, r], s0);
    }
    assert Run(s0, [e, r]) == Run(s2, [r]) by {
      assert [e, r] == [e] + [r];
      FirstEndCall(s0, 0, false, NoFaults);
      RunThen(s0, e, [r], s2);
    }
    assert Run(s2, [r]) == s3 by {
      assert [r] == [r] + [];
      assert CheckFirstRequest(Some(marked), r.faults) == Check(true, Some(marked), [FirstRequestCheckFailure(detail)]);
      RunThen(s2, r, [], s3);
    }
  }

  /**
   * A marker that someone else stored as null reads as absent, but adding it
   * throws because the key exists: every end call then logs the failure and
   * reports the pair again, and the null entry stays.
   */
  lemma NullMarkerHistory()
    ensures var s := Run(Initial(Pass, map[0 := Context(map[EndRequestCallFlag := NullItem], None)]),
                         [Init(Registered), EndRequest(0, false, NoFaults), EndRequest(0, false, NoFaults)]);
      s.events == [FirstRequestCheckFailure(DuplicateKeyDetail), OnError, OnEnd,
                   FirstRequestCheckFailure(DuplicateKeyDetail), OnError, OnEnd] &&
      0 in s.requests && s.requests[0].items == map[EndRequestCallFlag := NullItem]
  {
    var e := EndRequest(0, false, NoFaults);
    var held := Context(map[EndRequestCallFlag := NullItem], None);
    var m0 := map[0 := held];
    var s0, s2 := State(true, m0, []), State(true, m0, [FirstRequestCheckFailure(DuplicateKeyDetail), OnError, OnEnd]);
    var s3 := State(true, m0, [FirstRequestCheckFailure(DuplicateKeyDetail), OnError, OnEnd,
                               FirstRequestCheckFailure(DuplicateKeyDetail), OnError, OnEnd]);
    assert Run(Initial(Pass, m0), [Init(Registered), e, e]) == Run(s0, [e, e]) by {
      assert [Init(Registered), e, e] == [Init(Registered)] + [e, e];
      RunThen(s0, Init(Registered), [e, e], s0);
    }
    assert CheckFirstRequest(Some(held), NoFaults) == Check(true, Some(held), [FirstRequestCheckFailure(DuplicateKeyDetail)]);
    assert m0[0 := held] == m0;
    assert Run(s0, [e, e]) == Run(s2, [e]) by {
      assert [e, e] == [e] + [e];
      RunThen(s0, e, [e], s2);
    }
    assert Run(s2, [e]) == s3 by {
      assert [e] == [e] + [];
      RunThen(s2, e, [], s3);
    }
  }

  /**
   * A failed configuration bootstrap: the module logs the exception once,
   * subscribes nothing, and its handlers write nothing if called anyway.
   */
  method BootstrapFailure(detail: string) returns (events: seq<Event>, begin: nat, end: nat)
    ensures events == [WebModuleInitializationExceptionEvent(detail)]
    ensures begin == 0 && end == 0
  {
    var log := new EventLog(true);
    var context := new HttpContext(map[], None);
    var app := new HttpApplication(context);
    var aiModule := new ApplicationInsightsHttpModule(log, Fail(detail));
    aiModule.Init(app, Registered);
    aiModule.OnBeginRequest(app, NoFaults);
    aiModule.OnEndRequest(app, NoFaults);
    events := log.events;
    begin := |app.beginRequest|;
    end := |app.endRequest|;
  }

  /**
   * The end handler's subscription throws: the begin handler stays
   * subscribed, the module is disabled, and the begin handler then writes
   * nothing.
   */
  method EndSubscriptionFailure(detail: string) returns (events: seq<Event>, begin: nat, end: nat)
    ensures events == [WebModuleInitializationExceptionEvent(detail)]
    ensures begin == 1 && end == 0
  {
    var log := new EventLog(false);
    var context := new HttpContext(map[], None);
    var app := new HttpApplication(context);
    var aiModule := new ApplicationInsightsHttpModule(log, Pass);
    aiModule.Init(app, EndRequestFails(detail));
    aiModule.OnBeginRequest(app, NoFaults);
    events := log.events;
    begin := |app.beginRequest|;
    end := |app.endRequest|;
  }

}
