/** The polling loop of main.py `main`: check, stop as soon as the product is in
    stock, otherwise log, print a blank line and sleep five minutes. The endless
    `while True` is modelled over a finite sequence of request outcomes, one per
    check; when they run out before the product is found, the run is cut there. */
module Polling {
  import opened Stats
  import opened Effects
  import opened Notifications
  import opened Checker
  import opened Product

  /** The pause between two checks, in seconds. */
  const PollSeconds: nat := 300

  const StopLine: Event := Log(Stopping, Success)
  const WaitLines: seq<Event> := [Log(Waiting, Info), BlankLine, Sleep(PollSeconds)]

  datatype RunResult = RunResult(stats: Statistics, checks: nat, found: bool, events: seq<Event>)

  /** `checks` outcomes were checked and `found` says whether the product was:
      the checks run up to and including the first in-stock outcome, or over all
      outcomes when none is in stock. */
  ghost predicate StopsAtFirst(outcomes: seq<HttpResult>, checks: nat, found: bool) {
    && checks <= |outcomes|
    && (found ==> 1 <= checks && InStock(outcomes[checks - 1]))
    && (forall i :: 0 <= i < checks && (i < checks - 1 || !found) ==> !InStock(outcomes[i]))
    && (!found ==> checks == |outcomes|)
  }

  /** The loop from `st` on, fed one outcome per check. */
  function Run(config: ProductConfig, st: Statistics, outcomes: seq<HttpResult>, services: seq<Service>): (r: RunResult)
    ensures StopsAtFirst(outcomes, r.checks, r.found)
    ensures r.stats.totalChecks == st.totalChecks + r.checks
    ensures r.stats.inStockCount == st.inStockCount + (if r.found then 1 else 0)
    ensures Consistent(st) ==> Consistent(r.stats)
    decreases |outcomes|
  {
    if outcomes == [] then RunResult(st, 0, false, [])
    else
      var c := Check(config, st, outcomes[0], services);
      CheckCountsOnce(config, st, outcomes[0], services);
      if c.inStock then RunResult(c.stats, 1, true, c.events + [StopLine])
      else
        var rest := Run(config, c.stats, outcomes[1..], services);
        assert forall i :: 1 <= i < |outcomes| ==> outcomes[i] == outcomes[1..][i - 1];
        RunResult(rest.stats, rest.checks + 1, rest.found, c.events + WaitLines + rest.events)
  }

  /** The loop ends at the first in-stock outcome, and only there. */
  lemma RunStopsAtFirst(config: ProductConfig, st: Statistics, outcomes: seq<HttpResult>, services: seq<Service>)
    ensures var r := Run(config, st, outcomes, services);
            && (r.found <==> exists i :: 0 <= i < |outcomes| && InStock(outcomes[i]))
            && (r.found ==> forall i :: 0 <= i < r.checks - 1 ==> !InStock(outcomes[i]))
  {
  }

  /* ---------------------------------------------------------------------------
     The trace of a run
     --------------------------------------------------------------------------- */

  lemma StopSelect(checkEvents: seq<Event>, keep: Event -> bool)
    ensures Select(checkEvents + [StopLine], keep)
            == Select(checkEvents, keep) + (if keep(StopLine) then [StopLine] else [])
  {
    SelectAppend(checkEvents, [StopLine], keep);
    SelectOne(StopLine, keep);
  }

  lemma WaitSelect(checkEvents: seq<Event>, rest: seq<Event>, keep: Event -> bool)
    ensures Select(checkEvents + WaitLines + rest, keep)
            == Select(checkEvents, keep) + Select(WaitLines, keep) + Select(rest, keep)
  {
    SelectAppend(checkEvents + WaitLines, rest, keep);
    SelectAppend(checkEvents, WaitLines, keep);
  }

  /** The wait between two checks holds one sleep and nothing else counted. */
  lemma WaitLinesSelect()
    ensures Select(WaitLines, IsPost) == [] && Select(WaitLines, IsAttempt) == []
    ensures Select(WaitLines, IsSleep) == [Sleep(PollSeconds)]
    ensures Select(WaitLines, IsPostOrSleep) == [Sleep(PollSeconds)]
  {
    var w := WaitLines;
    assert w == [w[0], w[1]] + [w[2]];
    SelectAppend([w[0], w[1]], [w[2]], IsSleep);
    SelectNone([w[0], w[1]], IsSleep);
    SelectOne(w[2], IsSleep);
    SelectAppend([w[0], w[1]], [w[2]], IsPostOrSleep);
    SelectNone([w[0], w[1]], IsPostOrSleep);
    SelectOne(w[2], IsPostOrSleep);
    SelectNone(w, IsPost);
    SelectNone(w, IsAttempt);
  }

  /** Every event of `s` is the five-minute sleep. */
  predicate AllPolls(s: seq<Event>) {
    forall k :: 0 <= k < |s| ==> s[k] == Sleep(PollSeconds)
  }

  lemma AllPollsAppend(a: seq<Event>, b: seq<Event>)
    requires AllPolls(a) && AllPolls(b)
    ensures AllPolls(a + b)
  {
    forall k | 0 <= k < |a + b|
      ensures (a + b)[k] == Sleep(PollSeconds)
    {
      if k >= |a| {
        assert (a + b)[k] == b[k - |a|];
      }
    }
  }

  /** How many events of a check, the wait after it and the rest of the run `keep` selects. */
  lemma WaitCount(checkEvents: seq<Event>, rest: seq<Event>, keep: Event -> bool)
    ensures |Select(checkEvents + WaitLines + rest, keep)|
            == |Select(checkEvents, keep)| + |Select(WaitLines, keep)| + |Select(rest, keep)|
  {
    WaitSelect(checkEvents, rest, keep);
  }

  lemma StopCount(checkEvents: seq<Event>, keep: Event -> bool)
    requires !keep(StopLine)
    ensures |Select(checkEvents + [StopLine], keep)| == |Select(checkEvents, keep)|
  {
    StopSelect(checkEvents, keep);
  }

  lemma PollsStep(checkEvents: seq<Event>, rest: seq<Event>)
    requires Select(checkEvents, IsSleep) == [] && AllPolls(Select(rest, IsSleep))
    ensures AllPolls(Select(checkEvents + WaitLines + rest, IsSleep))
  {
    WaitSelect(checkEvents, rest, IsSleep);
    WaitLinesSelect();
    var later := Select(rest, IsSleep);
    assert [] + [Sleep(PollSeconds)] + later == [Sleep(PollSeconds)] + later;
    AllPollsAppend([Sleep(PollSeconds)], later);
  }

  lemma PollsStop(checkEvents: seq<Event>)
    requires Select(checkEvents, IsSleep) == []
    ensures AllPolls(Select(checkEvents + [StopLine], IsSleep))
  {
    StopSelect(checkEvents, IsSleep);
  }

  /** One availability request per check. */
  lemma {:induction false} RunPosts(config: ProductConfig, st: Statistics, outcomes: seq<HttpResult>, services: seq<Service>)
    ensures var r := Run(config, st, outcomes, services);
            |Select(r.events, IsPost)| == r.checks
    decreases |outcomes|
  {
    if outcomes != [] {
      var c := Check(config, st, outcomes[0], services);
      CheckPostsOnce(config, st, outcomes[0], services);
      if c.inStock {
        StopCount(c.events, IsPost);
      } else {
        var rest := Run(config, c.stats, outcomes[1..], services);
        WaitCount(c.events, rest.events, IsPost);
        WaitLinesSelect();
        RunPosts(config, c.stats, outcomes[1..], services);
      }
    }
  }

  /** A sleep after every check that did not find the product, and no other sleep ... */
  lemma {:induction false} RunSleeps(config: ProductConfig, st: Statistics, outcomes: seq<HttpResult>, services: seq<Service>)
    ensures var r := Run(config, st, outcomes, services);
            |Select(r.events, IsSleep)| == (if r.found then r.checks - 1 else r.checks)
    decreases |outcomes|
  {
    if outcomes != [] {
      var c := Check(config, st, outcomes[0], services);
      CheckPostsOnce(config, st, outcomes[0], services);
      if c.inStock {
        StopCount(c.events, IsSleep);
      } else {
        var rest := Run(config, c.stats, outcomes[1..], services);
        WaitCount(c.events, rest.events, IsSleep);
        WaitLinesSelect();
        RunSleeps(config, c.stats, outcomes[1..], services);
      }
    }
  }

  /** ... and every sleep lasts five minutes. */
  lemma {:induction false} RunSleepsArePolls(config: ProductConfig, st: Statistics, outcomes: seq<HttpResult>, services: seq<Service>)
    ensures AllPolls(Select(Run(config, st, outcomes, services).events, IsSleep))
    decreases |outcomes|
  {
    if outcomes != [] {
      var c := Check(config, st, outcomes[0], services);
      CheckPostsOnce(config, st, outcomes[0], services);
      if c.inStock {
        PollsStop(c.events);
      } else {
        var rest := Run(config, c.stats, outcomes[1..], services);
        RunSleepsArePolls(config, c.stats, outcomes[1..], services);
        PollsStep(c.events, rest.events);
      }
    }
  }

  /** The backends are called only by the check that found the product: each
      once, in list order, with the alert and the counters after that check. */
  lemma {:induction false} RunAttempts(config: ProductConfig, st: Statistics, outcomes: seq<HttpResult>, services: seq<Service>)
    ensures var r := Run(config, st, outcomes, services);
            var calls := Select(r.events, IsAttempt);
            && |calls| == (if r.found then |services| else 0)
            && (r.found ==> forall i :: 0 <= i < |services| ==>
                              calls[i] == Attempt(Alert, Deliver(services[i].kind, Alert, r.stats)))
    decreases |outcomes|
  {
    if outcomes != [] {
      var c := Check(config, st, outcomes[0], services);
      if c.inStock {
        CheckNotifies(config, st, outcomes[0], services);
        StopSelect(c.events, IsAttempt);
      } else {
        var rest := Run(config, c.stats, outcomes[1..], services);
        CheckQuiet(config, st, outcomes[0], services);
        WaitSelect(c.events, rest.events, IsAttempt);
        WaitLinesSelect();
        assert Select(c.events + WaitLines + rest.events, IsAttempt) == Select(rest.events, IsAttempt);
        RunAttempts(config, c.stats, outcomes[1..], services);
      }
    }
  }

  /** The pace the loop keeps, as a reference: each of `n` checks is a request,
      and a five-minute sleep follows every check except one that found the
      product, which is the last. */
  function Cadence(config: ProductConfig, n: nat, found: bool): seq<Event>
    decreases n
  {
    if n == 0 then []
    else if n == 1 && found then [Post(config)]
    else [Post(config), Sleep(PollSeconds)] + Cadence(config, n - 1, found)
  }

  /** A missed check, the wait after it, and a rest of the run that keeps the
      cadence, together keep the cadence. */
  lemma CadenceStep(config: ProductConfig, checkEvents: seq<Event>, rest: RunResult, r: RunResult)
    requires Select(checkEvents, IsPostOrSleep) == [Post(config)]
    requires Select(rest.events, IsPostOrSleep) == Cadence(config, rest.checks, rest.found)
    requires rest.found ==> 1 <= rest.checks
    requires r.events == checkEvents + WaitLines + rest.events
    requires r.checks == rest.checks + 1 && r.found == rest.found
    ensures Select(r.events, IsPostOrSleep) == Cadence(config, r.checks, r.found)
  {
    WaitSelect(checkEvents, rest.events, IsPostOrSleep);
    WaitLinesSelect();
    assert [Post(config)] + [Sleep(PollSeconds)] == [Post(config), Sleep(PollSeconds)];
  }

  /** The check that found the product, then the stop line, is the last step. */
  lemma CadenceStop(config: ProductConfig, checkEvents: seq<Event>, r: RunResult)
    requires Select(checkEvents, IsPostOrSleep) == [Post(config)]
    requires r.events == checkEvents + [StopLine] && r.checks == 1 && r.found
    ensures Select(r.events, IsPostOrSleep) == Cadence(config, r.checks, r.found)
  {
    StopSelect(checkEvents, IsPostOrSleep);
  }

  /** The requests and sleeps of a run follow the cadence: no sleep before the
      first check, exactly one between two checks, and none after the check that
      found the product. */
  lemma {:induction false} RunCadence(config: ProductConfig, st: Statistics, outcomes: seq<HttpResult>, services: seq<Service>)
    ensures var r := Run(config, st, outcomes, services);
            Select(r.events, IsPostOrSleep) == Cadence(config, r.checks, r.found)
    decreases |outcomes|
  {
    if outcomes != [] {
      var c := Check(config, st, outcomes[0], services);
      var r := Run(config, st, outcomes, services);
      assert Select(c.events, IsPostOrSleep) == [Post(config)] by {
        CheckPostsOnce(config, st, outcomes[0], services);
      }
      if c.inStock {
        CadenceStop(config, c.events, r);
      } else {
        var rest := Run(config, c.stats, outcomes[1..], services);
        RunCadence(config, c.stats, outcomes[1..], services);
        CadenceStep(config, c.events, rest, r);
      }
    }
  }

  /** A run that found the product ends with the stop line. */
  lemma {:induction false} RunEndsWithStop(config: ProductConfig, st: Statistics, outcomes: seq<HttpResult>, services: seq<Service>)
    ensures var r := Run(config, st, outcomes, services);
            r.found ==> |r.events| > 0 && r.events[|r.events| - 1] == StopLine
    decreases |outcomes|
  {
    if outcomes != [] {
      var c := Check(config, st, outcomes[0], services);
      if !c.inStock {
        RunEndsWithStop(config, c.stats, outcomes[1..], services);
      }
    }
  }
}
