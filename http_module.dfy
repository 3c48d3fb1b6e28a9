/**
 * ApplicationInsightsHttpModule as an object: its isEnabled field, the host
 * objects it is handed (the application, its current request context and the
 * context's Items dictionary) and the event log it writes to. Every method is
 * specified by the pure function of module Lifecycle that describes the same
 * callback, in terms of the state before the call.
 */
module HttpModule {
  import opened Wrappers
  import opened Lifecycle

  /**
   * The lifecycle publisher and the diagnostic event source, merged into one
   * ordered log, together with the event source's verbose switch.
   */
  class EventLog {
    var events: seq<Event>
    var isVerboseEnabled: bool

    constructor(verbose: bool)
      ensures events == [] && isVerboseEnabled == verbose
    {
      events := [];
      isVerboseEnabled := verbose;
    }

    /** Appends one event. */
    method Write(e: Event)
      modifies this`events
      ensures events == old(events) + [e]
    {
      events := events + [e];
    }
  }

  /** A request context: its Items dictionary and the URL of its request (None for a null URL). */
  class HttpContext {
    var items: map<string, ItemValue>
    const url: Option<string>

    constructor(items: map<string, ItemValue>, url: Option<string>)
      ensures this.items == items && this.url == url
    {
      this.items := items;
      this.url := url;
    }

    /**
     * The dictionary's Add: a key already present makes it throw, and so does
     * the injected fault; otherwise the entry is added.
     */
    method Add(key: string, value: ItemValue, fault: Option<string>) returns (outcome: Outcome)
      modifies this`items
      ensures Added(outcome, items) == AddItem(old(items), key, value, fault)
    {
      if key in items {
        outcome := Fail(DuplicateKeyDetail);
      } else if fault.Some? {
        outcome := Fail(fault.value);
      } else {
        items := items[key := value];
        outcome := Pass;
      }
    }
  }

  /** The host application: its current request context (possibly null) and its two handler lists. */
  class HttpApplication {
    var context: HttpContext?
    var beginRequest: seq<ApplicationInsightsHttpModule>
    var endRequest: seq<ApplicationInsightsHttpModule>

    constructor(context: HttpContext?)
      ensures this.context == context && beginRequest == [] && endRequest == []
    {
      this.context := context;
      beginRequest := [];
      endRequest := [];
    }

    /** The current context as a value. */
    function View(): Option<Context>
      reads this, context
    {
      if context == null then None else Some(Context(context.items, context.url))
    }
  }

  class ApplicationInsightsHttpModule {
    /** Whether the module initialized successfully; once false it never becomes true again. */
    var isEnabled: bool
    /** Where the module's events go. */
    const log: EventLog

    /**
     * Activates the telemetry configuration; a failure (bootstrap is Fail)
     * disables the module and logs the exception.
     */
    constructor(log: EventLog, bootstrap: Outcome)
      modifies log`events
      ensures this.log == log
      ensures isEnabled == Construct(bootstrap).enabled
      ensures log.events == old(log.events) + Construct(bootstrap).events
    {
      isEnabled := true;
      this.log := log;
      new;
      if bootstrap.Fail? {
        isEnabled := false;
        log.Write(WebModuleInitializationExceptionEvent(bootstrap.detail));
      }
    }

    /**
     * Subscribes OnBeginRequest and then OnEndRequest to the application when
     * enabled; a subscription that throws disables the module and is logged.
     */
    method Init(app: HttpApplication, registration: Registration)
      modifies this`isEnabled, app`beginRequest, app`endRequest, log`events
      ensures var r := InitStep(old(isEnabled), registration);
        isEnabled == r.enabled &&
        app.beginRequest == old(app.beginRequest) + (if r.subscribedBegin then [this] else []) &&
        app.endRequest == old(app.endRequest) + (if r.subscribedEnd then [this] else []) &&
        log.events == old(log.events) + r.events
    {
      if isEnabled {
        if registration.BeginRequestFails? {
          isEnabled := false;
          log.Write(WebModuleInitializationExceptionEvent(registration.detail));
        } else {
          app.beginRequest := app.beginRequest + [this];
          if registration.EndRequestFails? {
            isEnabled := false;
            log.Write(WebModuleInitializationExceptionEvent(registration.detail));
          } else {
            app.endRequest := app.endRequest + [this];
          }
        }
      }
    }

    /**
     * Traces a callback when verbose tracing is on and there is a context:
     * the callback with the URL text, or the failure to obtain it.
     */
    method TraceCallback(callback: string, app: HttpApplication, urlFault: Option<string>)
      modifies log`events
      ensures log.events == old(log.events) + TraceCallbackEvents(old(log.isVerboseEnabled), callback, app.View(), urlFault)
    {
      if log.isVerboseEnabled {
        var context := app.context;
        if context != null {
          if urlFault.Some? {
            log.Write(TraceCallbackFailure(callback, urlFault.value));
          } else {
            var logUrl := if context.url.Some? then context.url.value else "";
            log.Write(WebModuleCallback(callback, logUrl));
          }
        }
      }
    }

    /**
     * Whether this is the first end call for the current request: reads the
     * marker, adds it when it reads as null, and answers true whenever
     * anything throws (after logging it) or there is no context.
     */
    method IsFirstRequest(app: HttpApplication, faults: Faults) returns (first: bool)
      modifies log`events, app.context
      ensures var c := CheckFirstRequest(old(app.View()), faults);
        first == c.first && app.View() == c.ctx && log.events == old(log.events) + c.diagnostics
    {
      first := true;
      var context := app.context;
      if context != null {
        if faults.readFault.Some? {
          log.Write(FirstRequestCheckFailure(faults.readFault.value));
        } else {
          first := EndRequestCallFlag !in context.items || context.items[EndRequestCallFlag] == NullItem;
          if first {
            var outcome := context.Add(EndRequestCallFlag, BoolItem(true), faults.addFault);
            if outcome.Fail? {
              log.Write(FirstRequestCheckFailure(outcome.detail));
            }
          }
        }
      }
    }

    /** BeginRequest handler: when enabled, the trace and then OnBegin. */
    method OnBeginRequest(app: HttpApplication, faults: Faults)
      modifies log`events
      ensures log.events == old(log.events) + BeginRequestEvents(isEnabled, old(log.isVerboseEnabled), app.View(), faults)
    {
      if isEnabled {
        TraceCallback(BeginCallbackName, app, faults.urlFault);
        log.Write(OnBegin);
      }
    }

    /**
     * EndRequest handler: when enabled, the trace, then OnError and OnEnd for
     * the first end call of the request or RequestFiltered for a repeated one.
     */
    method OnEndRequest(app: HttpApplication, faults: Faults)
      modifies log`events, app.context
      ensures var r := EndRequestStep(isEnabled, old(log.isVerboseEnabled), old(app.View()), faults);
        app.View() == r.ctx && log.events == old(log.events) + r.events
    {
      if isEnabled {
        ghost var ctx := app.View();
        ghost var trace := TraceCallbackEvents(log.isVerboseEnabled, EndCallbackName, ctx, faults.urlFault);
        ghost var check := CheckFirstRequest(ctx, faults);
        TraceCallback(EndCallbackName, app, faults.urlFault);
        assert app.View() == ctx;
        var first := IsFirstRequest(app, faults);
        assert log.events == old(log.events) + trace + check.diagnostics;
        ghost var before := log.events;
        if first {
          log.Write(OnError);
          log.Write(OnEnd);
        } else {
          log.Write(RequestFiltered);
        }
        assert log.events == before + EndOutcome(first);
        assert first == check.first;
        assert log.events == old(log.events) + (trace + check.diagnostics + EndOutcome(check.first));
      }
    }
  }
}
