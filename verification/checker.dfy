/** One availability check (main.py, `AirUpChecker.check_availability`). The HTTP
    exchange is an input: either the transport raised, or a status code and a body
    came back. */
module Checker {
  import opened Text
  import opened Stats
  import opened Effects
  import opened Notifications
  import opened Product

  /** What the HTTP layer produced for the availability request. */
  datatype HttpResult =
    | TransportError(error: string)       // a `RequestException` and its text
    | Response(status: int, text: string)

  const OutOfStockMarker: string := "OUT_OF_STOCK"

  /** The product is available: a 200 reply whose body nowhere contains the marker. */
  ghost predicate InStock(outcome: HttpResult) {
    && outcome.Response?
    && outcome.status == 200
    && !exists i :: OccursAt(outcome.text, OutOfStockMarker, i)
  }

  /** A 200 reply that reports the product as unavailable. */
  ghost predicate OutOfStock(outcome: HttpResult) {
    && outcome.Response?
    && outcome.status == 200
    && exists i :: OccursAt(outcome.text, OutOfStockMarker, i)
  }

  /** The request raised, or the status was not 200. */
  predicate Failed(outcome: HttpResult) {
    outcome.TransportError? || outcome.status != 200
  }

  /** The notification sent when the product is in stock. */
  const Alert: Request := Request(
    "AirUp Charcoal Grey Bottle Available!",
    "The classic AirUp bottle in Charcoal Grey is now in stock. Go buy it!",
    Success)

  datatype CheckResult = CheckResult(stats: Statistics, inStock: bool, events: seq<Event>)

  /** The events of one check around its log line: the request first, the title
      update with the new counters last, and the fan-out in between. */
  function CheckTrace(config: ProductConfig, line: Event, notifications: seq<Event>, st: Statistics): seq<Event> {
    [Post(config), line] + notifications + [UpdateTitle(st)]
  }

  lemma CheckTraceSelect(config: ProductConfig, line: Event, notifications: seq<Event>, st: Statistics, keep: Event -> bool)
    requires !keep(line) && !keep(UpdateTitle(st))
    ensures Select(CheckTrace(config, line, notifications, st), keep)
            == (if keep(Post(config)) then [Post(config)] else [])
               + Select(notifications, keep)
  {
    var head := [Post(config), line];
    var tail := [UpdateTitle(st)];
    SelectAppend(head + notifications, tail, keep);
    SelectAppend(head, notifications, keep);
    SelectOne(tail[0], keep);
    assert head == [head[0]] + [line];
    SelectAppend([head[0]], [line], keep);
    SelectOne(head[0], keep);
    SelectOne(line, keep);
  }

  /** How `check_availability` reads the reply. */
  datatype Verdict = Available | Unavailable | Failure

  /** The test the source applies: the `in` substring search on the body. */
  function Classify(outcome: HttpResult): Verdict {
    match outcome
    case TransportError(_) => Failure
    case Response(status, text) =>
      if status != 200 then Failure
      else if Contains(text, OutOfStockMarker) then Unavailable
      else Available
  }

  /** The classification agrees with the meaning of the three outcomes. */
  lemma ClassifyMeaning(outcome: HttpResult)
    ensures Classify(outcome) == Available <==> InStock(outcome)
    ensures Classify(outcome) == Unavailable <==> OutOfStock(outcome)
    ensures Classify(outcome) == Failure <==> Failed(outcome)
  {
    if outcome.Response? {
      ContainsIffOccurs(outcome.text, OutOfStockMarker);
    }
  }

  /** The counters after a check with the given verdict. */
  function Count(st: Statistics, verdict: Verdict): (r: Statistics)
    ensures r.totalChecks == st.totalChecks + 1
    ensures r.inStockCount == st.inStockCount + (if verdict == Available then 1 else 0)
    ensures r.outOfStockCount == st.outOfStockCount + (if verdict == Unavailable then 1 else 0)
    ensures r.errorCount == st.errorCount + (if verdict == Failure then 1 else 0)
  {
    var counted := st.(totalChecks := st.totalChecks + 1);
    match verdict
    case Available => counted.(inStockCount := counted.inStockCount + 1)
    case Unavailable => counted.(outOfStockCount := counted.outOfStockCount + 1)
    case Failure => counted.(errorCount := counted.errorCount + 1)
  }

  /** The line logged right after the request: which message, at which level, for
      each kind of reply. */
  function OutcomeLine(outcome: HttpResult): (line: Event)
    ensures outcome.TransportError? ==> line == Log(CheckFailed(outcome.error), Error)
    ensures outcome.Response? && outcome.status != 200 ==>
              line == Log(UnexpectedStatus(outcome.status), Error)
    ensures OutOfStock(outcome) ==> line == Log(StillOutOfStock, Warning)
    ensures InStock(outcome) ==> line == Log(NowInStock, Success)
  {
    match outcome
    case TransportError(error) => Log(CheckFailed(error), Error)
    case Response(status, text) =>
      ContainsIffOccurs(text, OutOfStockMarker);
      if status != 200 then Log(UnexpectedStatus(status), Error)
      else if Contains(text, OutOfStockMarker) then Log(StillOutOfStock, Warning)
      else Log(NowInStock, Success)
  }

  /** The backends a check with the given verdict calls. */
  function Notified(verdict: Verdict, services: seq<Service>, st: Statistics): seq<Event> {
    if verdict == Available then FanOut(services, Alert, st) else []
  }

  /** `check_availability`: counts the check, classifies the reply, and notifies
      only when the product is in stock. No outcome escapes as an exception. */
  function Check(config: ProductConfig, st: Statistics, outcome: HttpResult, services: seq<Service>): (r: CheckResult)
    ensures r.inStock <==> InStock(outcome)
    ensures Failed(outcome) ==>
              r.stats == st.(totalChecks := st.totalChecks + 1, errorCount := st.errorCount + 1)
    ensures OutOfStock(outcome) ==>
              r.stats == st.(totalChecks := st.totalChecks + 1, outOfStockCount := st.outOfStockCount + 1)
    ensures InStock(outcome) ==>
              r.stats == st.(totalChecks := st.totalChecks + 1, inStockCount := st.inStockCount + 1)
    ensures |r.events| >= 3 && r.events[0] == Post(config)
    ensures r.events[|r.events| - 1] == UpdateTitle(r.stats)
    ensures outcome.TransportError? ==> r.events[1] == Log(CheckFailed(outcome.error), Error)
    ensures outcome.Response? && outcome.status != 200 ==>
              r.events[1] == Log(UnexpectedStatus(outcome.status), Error)
    ensures OutOfStock(outcome) ==> r.events[1] == Log(StillOutOfStock, Warning)
    ensures InStock(outcome) ==> r.events[1] == Log(NowInStock, Success)
    ensures !InStock(outcome) ==> |r.events| == 3
    ensures InStock(outcome) ==> r.events[2..|r.events| - 1] == FanOut(services, Alert, r.stats)
  {
    var verdict := Classify(outcome);
    ClassifyMeaning(outcome);
    var s := Count(st, verdict);
    var notifications := Notified(verdict, services, s);
    var events := CheckTrace(config, OutcomeLine(outcome), notifications, s);
    assert events[2..|events| - 1] == notifications;
    CheckResult(s, verdict == Available, events)
  }

  /** Each check is counted exactly once, under exactly one outcome, so the counter
      invariant is kept. */
  lemma CheckCountsOnce(config: ProductConfig, st: Statistics, outcome: HttpResult, services: seq<Service>)
    ensures var r := Check(config, st, outcome, services);
            && r.stats.totalChecks == st.totalChecks + 1
            && (r.stats.inStockCount - st.inStockCount) + (r.stats.outOfStockCount - st.outOfStockCount)
               + (r.stats.errorCount - st.errorCount) == 1
            && (Consistent(st) ==> Consistent(r.stats))
  {
  }

  lemma CheckParts(config: ProductConfig, st: Statistics, outcome: HttpResult, services: seq<Service>)
    ensures var r := Check(config, st, outcome, services);
            var s := Count(st, Classify(outcome));
            && r.stats == s
            && r.events == CheckTrace(config, OutcomeLine(outcome), Notified(Classify(outcome), services, s), s)
  {
  }

  /** Each check posts exactly one availability request and never sleeps. */
  lemma CheckPostsOnce(config: ProductConfig, st: Statistics, outcome: HttpResult, services: seq<Service>)
    ensures var r := Check(config, st, outcome, services);
            && Select(r.events, IsPost) == [Post(config)]
            && Select(r.events, IsSleep) == []
            && Select(r.events, IsPostOrSleep) == [Post(config)]
  {
    var s := Count(st, Classify(outcome));
    var notifications := Notified(Classify(outcome), services, s);
    CheckParts(config, st, outcome, services);
    CheckTraceSelect(config, OutcomeLine(outcome), notifications, s, IsPost);
    CheckTraceSelect(config, OutcomeLine(outcome), notifications, s, IsSleep);
    CheckTraceSelect(config, OutcomeLine(outcome), notifications, s, IsPostOrSleep);
    SelectNone(notifications, IsPost);
    SelectNone(notifications, IsSleep);
    SelectNone(notifications, IsPostOrSleep);
  }

  /** The notifications of a check with the given verdict call the backends, each
      once and in order, when the product is available, and nothing otherwise. */
  lemma NotifiedAttempts(verdict: Verdict, services: seq<Service>, st: Statistics)
    ensures verdict != Available ==> Select(Notified(verdict, services, st), IsAttempt) == []
    ensures verdict == Available ==>
              var calls := Select(Notified(verdict, services, st), IsAttempt);
              |calls| == |services|
              && forall i :: 0 <= i < |services| ==>
                   calls[i] == Attempt(Alert, Deliver(services[i].kind, Alert, st))
  {
    if verdict == Available {
      FanOutAttempts(services, Alert, st);
    }
  }

  /** The calls a check makes are those of its notifications. */
  lemma CheckAttempts(config: ProductConfig, st: Statistics, outcome: HttpResult, services: seq<Service>)
    ensures var s := Count(st, Classify(outcome));
            Select(Check(config, st, outcome, services).events, IsAttempt)
            == Select(Notified(Classify(outcome), services, s), IsAttempt)
  {
    var s := Count(st, Classify(outcome));
    CheckParts(config, st, outcome, services);
    CheckTraceSelect(config, OutcomeLine(outcome), Notified(Classify(outcome), services, s), s, IsAttempt);
  }

  /** No backend is called unless the product is in stock. */
  lemma CheckQuiet(config: ProductConfig, st: Statistics, outcome: HttpResult, services: seq<Service>)
    requires !InStock(outcome)
    ensures Select(Check(config, st, outcome, services).events, IsAttempt) == []
  {
    ClassifyMeaning(outcome);
    CheckAttempts(config, st, outcome, services);
    NotifiedAttempts(Classify(outcome), services, Count(st, Classify(outcome)));
  }

  /** When the product is in stock every backend is called, once and in order, with
      the counters that include this check. */
  lemma CheckNotifies(config: ProductConfig, st: Statistics, outcome: HttpResult, services: seq<Service>)
    requires InStock(outcome)
    ensures var r := Check(config, st, outcome, services);
            var calls := Select(r.events, IsAttempt);
            && |calls| == |services|
            && forall i :: 0 <= i < |services| ==>
                 calls[i] == Attempt(Alert, Deliver(services[i].kind, Alert, r.stats))
  {
    ClassifyMeaning(outcome);
    CheckAttempts(config, st, outcome, services);
    NotifiedAttempts(Classify(outcome), services, Count(st, Classify(outcome)));
  }
}
