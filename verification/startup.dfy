/** main.py `main` as a whole: fresh counters, the first title update and the
    start line, then the polling loop. */
module Startup {
  import opened Stats
  import opened Effects
  import opened Notifications
  import opened Checker
  import opened Product
  import opened Polling

  /** main.py `main`: fresh counters, the first title update, the start line, then the loop. */
  function Script(config: ProductConfig, outcomes: seq<HttpResult>, services: seq<Service>): (r: RunResult)
    ensures StopsAtFirst(outcomes, r.checks, r.found)
    ensures Consistent(r.stats)
    ensures r.stats.totalChecks == r.checks
    ensures r.stats.inStockCount == (if r.found then 1 else 0)
    ensures |r.events| >= 2 && r.events[0] == UpdateTitle(Zero) && r.events[1] == Log(Starting, Info)
    ensures r.events[2..] == Run(config, Zero, outcomes, services).events
  {
    var run := Run(config, Zero, outcomes, services);
    var events := [UpdateTitle(Zero), Log(Starting, Info)] + run.events;
    assert events[2..] == run.events;
    run.(events := events)
  }
}
