/** The notification backends and the fan-out that calls them (main.py,
    `DesktopNotificationService`, `DiscordNotificationService` and
    `AirUpChecker._notify_all`). A backend call is an event in the trace; whether
    the backend raises is decided by the environment and given with the backend. */
module Notifications {
  import opened Text
  import opened Stats
  import opened Effects

  /* ---------------------------------------------------------------------------
     Discord colour and emoji per status
     --------------------------------------------------------------------------- */

  /** The embed colour: green, red, cyan, yellow. */
  function ColorOf(status: NotificationStatus): (rgb: nat)
    ensures rgb < 0x1000000
    ensures StatusOfColor(rgb) == Some(status)
  {
    match status
    case Success => 0x00FF00
    case Error => 0xFF0000
    case Info => 0x00FFFF
    case Warning => 0xFFFF00
  }

  /** Reads the status back from an embed colour. */
  function StatusOfColor(rgb: nat): Option<NotificationStatus> {
    if rgb == 0x00FF00 then Some(Success)
    else if rgb == 0xFF0000 then Some(Error)
    else if rgb == 0x00FFFF then Some(Info)
    else if rgb == 0xFFFF00 then Some(Warning)
    else None
  }

  /** The emoji put before the embed title: check mark, cross mark, information
      source and warning sign (the last two with the emoji variation selector). */
  function EmojiOf(status: NotificationStatus): string {
    match status
    case Success => "\U{2705}"
    case Error => "\U{274C}"
    case Info => "\U{2139}\U{FE0F}"
    case Warning => "\U{26A0}\U{FE0F}"
  }

  /** Different statuses get different colours and different emoji. */
  lemma StatusMapsDistinct(s: NotificationStatus, t: NotificationStatus)
    requires s != t
    ensures ColorOf(s) != ColorOf(t)
    ensures EmojiOf(s) != EmojiOf(t)
  {
  }

  /* ---------------------------------------------------------------------------
     The Discord webhook body
     --------------------------------------------------------------------------- */

  /** The labels of the "Check Statistics" field, each followed by one counter. */
  const StatsLabels: seq<string> :=
    ["Total Checks: ", "\nIn Stock Count: ", "\nOut of Stock Count: ", "\nError Count: "]

  /** The counters in the order the field lists them. */
  function Counters(st: Statistics): seq<nat> {
    [st.totalChecks, st.inStockCount, st.outOfStockCount, st.errorCount]
  }

  /** Each label followed by its counter's numeral. */
  function Labelled(labels: seq<string>, values: seq<nat>): string
    requires |labels| == |values|
    decreases |labels|
  {
    if labels == [] then []
    else labels[0] + NatToString(values[0]) + Labelled(labels[1..], values[1..])
  }

  /** The field text of the embed. */
  function StatsText(st: Statistics): string {
    Labelled(StatsLabels, Counters(st))
  }

  /** Reads the counters back from text laid out by `Labelled`. */
  function ReadLabelled(labels: seq<string>, text: string): Option<seq<nat>>
    decreases |labels|
  {
    if labels == [] then
      if text == [] then Some([]) else None
    else
      match StripPrefix(text, labels[0])
      case None => None
      case Some(r) =>
        var (digits, rest) := Span(r, IsDigit);
        if digits == [] then None
        else
          match ReadLabelled(labels[1..], rest)
          case None => None
          case Some(values) => Some([ParseDigits(digits)] + values)
  }

  /** Every label after the first starts with a character that cannot continue a numeral. */
  predicate Separating(labels: seq<string>) {
    forall k :: 1 <= k < |labels| ==> |labels[k]| > 0 && !IsDigit(labels[k][0])
  }

  /** Labelled text whose first label cannot continue a numeral does not continue one either. */
  lemma LabelledHead(labels: seq<string>, values: seq<nat>)
    requires |labels| == |values|
    requires labels != [] ==> |labels[0]| > 0 && !IsDigit(labels[0][0])
    ensures var t := Labelled(labels, values); t == [] || !IsDigit(t[0])
  {
    if labels != [] {
      assert Labelled(labels, values)[0] == labels[0][0];
    }
  }

  /** One label and its numeral are read off the front. */
  lemma ReadLabelledStep(labels: seq<string>, digits: string, rest: string)
    requires labels != [] && digits != [] && AllDigits(digits)
    requires rest == [] || !IsDigit(rest[0])
    ensures ReadLabelled(labels, labels[0] + digits + rest)
            == match ReadLabelled(labels[1..], rest)
               case None => None
               case Some(values) => Some([ParseDigits(digits)] + values)
  {
    var text := labels[0] + digits + rest;
    assert text == labels[0] + (digits + rest);
    assert StripPrefix(text, labels[0]) == Some(digits + rest);
    SpanOf(digits, rest, IsDigit);
  }

  lemma {:induction false} ReadLabelledRoundTrip(labels: seq<string>, values: seq<nat>)
    requires |labels| == |values| && Separating(labels)
    ensures ReadLabelled(labels, Labelled(labels, values)) == Some(values)
    decreases |labels|
  {
    if labels != [] {
      var digits := NatToString(values[0]);
      var rest := Labelled(labels[1..], values[1..]);
      LabelledHead(labels[1..], values[1..]);
      ReadLabelledStep(labels, digits, rest);
      ParseNatToString(values[0]);
      assert Separating(labels[1..]) by {
        forall k | 1 <= k < |labels[1..]|
          ensures |labels[1..][k]| > 0 && !IsDigit(labels[1..][k][0])
        {
          assert labels[1..][k] == labels[k + 1];
        }
      }
      ReadLabelledRoundTrip(labels[1..], values[1..]);
      assert [values[0]] + values[1..] == values;
    }
  }

  /** Reads the four counters back from the field text. */
  function ParseStats(text: string): Option<Statistics> {
    match ReadLabelled(StatsLabels, text)
    case Some(values) =>
      if |values| == 4 then Some(Statistics(values[0], values[1], values[2], values[3])) else None
    case None => None
  }

  /** The field text carries the whole snapshot. */
  lemma StatsTextRoundTrip(st: Statistics)
    ensures ParseStats(StatsText(st)) == Some(st)
  {
    assert Separating(StatsLabels);
    ReadLabelledRoundTrip(StatsLabels, Counters(st));
  }

  /** The webhook body for one notification, with the statistics as they are at
      the moment of the call. */
  function DiscordPayload(req: Request, snapshot: Statistics): (p: Payload)
    ensures |p.embeds| == 1 && |p.embeds[0].fields| == 1
    ensures StatusOfColor(p.embeds[0].color) == Some(req.status)
    ensures p.embeds[0].description == req.message
    ensures EmojiOf(req.status) <= p.embeds[0].title
    ensures |req.title| <= |p.embeds[0].title|
            && p.embeds[0].title[|p.embeds[0].title| - |req.title|..] == req.title
    ensures ParseStats(p.embeds[0].fields[0].value) == Some(snapshot)
  {
    StatsTextRoundTrip(snapshot);
    var title := EmojiOf(req.status) + " " + req.title;
    assert title[|title| - |req.title|..] == req.title;
    Payload([Embed(title, req.message, ColorOf(req.status),
                   [EmbedField("Check Statistics", StatsText(snapshot), false)])])
  }

  /* ---------------------------------------------------------------------------
     Backends and the fan-out
     --------------------------------------------------------------------------- */

  datatype ServiceKind = Desktop | Discord(webhookUrl: string)

  /** How the environment answers one backend call: it returns, or it raises an
      exception whose text is `error`. */
  datatype Reply = Delivered | Raised(error: string)

  /** A registered backend together with the environment's answer to calling it. */
  datatype Service = Service(kind: ServiceKind, reply: Reply)

  /** `service.__class__.__name__`. */
  function ClassName(kind: ServiceKind): string {
    match kind
    case Desktop => "DesktopNotificationService"
    case Discord(_) => "DiscordNotificationService"
  }

  /** What the backend sends for one call. The desktop popup ignores the status. */
  function Deliver(kind: ServiceKind, req: Request, snapshot: Statistics): Delivery {
    match kind
    case Desktop => Popup(req.title, req.message, 10)
    case Discord(url) => Webhook(url, DiscordPayload(req, snapshot))
  }

  function ErrorLine(kind: ServiceKind, error: string): Event {
    Log(SendFailed(ClassName(kind), error), Error)
  }

  /** One iteration of the fan-out loop: the call, and the error line if it raised. */
  function CallService(s: Service, req: Request, snapshot: Statistics): seq<Event> {
    [Attempt(req, Deliver(s.kind, req, snapshot))]
    + match s.reply
      case Delivered => []
      case Raised(error) => [ErrorLine(s.kind, error)]
  }

  /** `_notify_all`: every backend in registration order, each inside its own
      `try`/`except`. */
  function FanOut(services: seq<Service>, req: Request, snapshot: Statistics): (trace: seq<Event>)
    ensures forall i :: 0 <= i < |trace| ==>
              trace[i].Attempt? || (trace[i].Log? && trace[i].status == Error)
    decreases |services|
  {
    if services == [] then []
    else CallService(services[0], req, snapshot) + FanOut(services[1..], req, snapshot)
  }

  /** The fan-out over two lists of backends is the two fan-outs one after the other. */
  lemma {:induction false} FanOutAppend(a: seq<Service>, b: seq<Service>, req: Request, snapshot: Statistics)
    ensures FanOut(a + b, req, snapshot) == FanOut(a, req, snapshot) + FanOut(b, req, snapshot)
    decreases |a|
  {
    if a == [] {
      assert a + b == b;
    } else {
      assert (a + b)[0] == a[0];
      assert (a + b)[1..] == a[1..] + b;
      FanOutAppend(a[1..], b, req, snapshot);
    }
  }

  /** Isolation: backend `i` is called, and its failure logged, whatever the backends
      before it did; and nothing it does changes what the backends after it do. */
  lemma FanOutIsolation(services: seq<Service>, i: nat, req: Request, snapshot: Statistics)
    requires i < |services|
    ensures FanOut(services, req, snapshot)
            == FanOut(services[..i], req, snapshot)
               + CallService(services[i], req, snapshot)
               + FanOut(services[i + 1..], req, snapshot)
  {
    assert services == services[..i] + ([services[i]] + services[i + 1..]);
    FanOutAppend(services[..i], [services[i]] + services[i + 1..], req, snapshot);
    FanOutAppend([services[i]], services[i + 1..], req, snapshot);
    assert [services[i]][1..] == [];
  }

  /** Every backend is called exactly once, in list order, with the same request,
      whatever the backends reply. */
  lemma {:induction false} FanOutAttempts(services: seq<Service>, req: Request, snapshot: Statistics)
    ensures var calls := Select(FanOut(services, req, snapshot), IsAttempt);
            |calls| == |services|
            && forall i :: 0 <= i < |services| ==>
                 calls[i] == Attempt(req, Deliver(services[i].kind, req, snapshot))
    decreases |services|
  {
    if services != [] {
      var head := CallService(services[0], req, snapshot);
      SelectAppend(head, FanOut(services[1..], req, snapshot), IsAttempt);
      SelectAppend([head[0]], head[1..], IsAttempt);
      assert head == [head[0]] + head[1..];
      SelectNone(head[1..], IsAttempt);
      SelectOne(head[0], IsAttempt);
      FanOutAttempts(services[1..], req, snapshot);
    }
  }

  /** The number of backends that raise. */
  function RaisingCount(services: seq<Service>): nat
    decreases |services|
  {
    if services == [] then 0
    else (if services[0].reply.Raised? then 1 else 0) + RaisingCount(services[1..])
  }

  /** One error line per backend that raised, and no other log lines. */
  lemma {:induction false} FanOutErrorLines(services: seq<Service>, req: Request, snapshot: Statistics)
    ensures |Select(FanOut(services, req, snapshot), IsLog)| == RaisingCount(services)
    decreases |services|
  {
    if services != [] {
      var head := CallService(services[0], req, snapshot);
      SelectAppend(head, FanOut(services[1..], req, snapshot), IsLog);
      SelectAppend([head[0]], head[1..], IsLog);
      assert head == [head[0]] + head[1..];
      SelectOne(head[0], IsLog);
      if services[0].reply.Raised? {
        SelectOne(head[1], IsLog);
        assert head[1..] == [head[1]];
      } else {
        assert head[1..] == [];
      }
      FanOutErrorLines(services[1..], req, snapshot);
    }
  }

  /** `_notify_all` as the loop it is written as: the call, then the error line
      when the backend raised. */
  method NotifyAll(services: seq<Service>, req: Request, snapshot: Statistics) returns (trace: seq<Event>)
    ensures trace == FanOut(services, req, snapshot)
  {
    trace := [];
    var i := 0;
    while i < |services|
      invariant 0 <= i <= |services|
      invariant trace == FanOut(services[..i], req, snapshot)
    {
      var service := services[i];
      var call := [Attempt(req, Deliver(service.kind, req, snapshot))];
      match service.reply {
        case Delivered =>
        case Raised(error) =>
          call := call + [ErrorLine(service.kind, error)];
      }
      assert call == CallService(service, req, snapshot);
      trace := trace + call;
      NotifyStep(services, i, req, snapshot);
      i := i + 1;
    }
    assert services[..|services|] == services;
  }

  lemma NotifyStep(services: seq<Service>, i: nat, req: Request, snapshot: Statistics)
    requires i < |services|
    ensures FanOut(services[..i + 1], req, snapshot)
            == FanOut(services[..i], req, snapshot) + CallService(services[i], req, snapshot)
  {
    assert services[..i + 1] == services[..i] + [services[i]];
    FanOutAppend(services[..i], [services[i]], req, snapshot);
    assert [services[i]][1..] == [];
  }
}
