/** What the script does to the world outside it, recorded as a trace of events
    instead of being performed: the availability request, console log lines,
    notification backend calls, terminal title updates, blank lines and sleeps. */
module Effects {
  import opened Text
  import opened Stats
  import opened Product

  /** main.py `NotificationStatus`. */
  datatype NotificationStatus = Success | Error | Info | Warning

  /** The arguments of one `send_notification(title, message, status)` call. */
  datatype Request = Request(title: string, message: string, status: NotificationStatus)

  /** The Discord webhook body `{"embeds": [embed]}`. The embed's timestamp is not modelled. */
  datatype EmbedField = EmbedField(name: string, value: string, inline: bool)
  datatype Embed = Embed(title: string, description: string, color: nat, fields: seq<EmbedField>)
  datatype Payload = Payload(embeds: seq<Embed>)

  /** What a notification backend sends when it is called. */
  datatype Delivery =
    | Popup(title: string, message: string, timeout: nat)
    | Webhook(url: string, payload: Payload)

  /** The lines the script logs. */
  datatype Message =
    | Starting
    | CheckFailed(error: string)                     // the text of the `RequestException`
    | UnexpectedStatus(code: int)
    | StillOutOfStock
    | NowInStock
    | SendFailed(className: string, error: string)   // a backend raised
    | Stopping
    | Waiting

  /** The text of each line, as the script formats it. */
  function MessageText(m: Message): string {
    match m
    case Starting => "Starting availability checker for AirUp Charcoal Grey bottle..."
    case CheckFailed(error) => "Error checking availability: " + error
    case UnexpectedStatus(code) => "Unexpected status code: " + IntToString(code)
    case StillOutOfStock => "Still out of stock..."
    case NowInStock => "IN STOCK! Sending notifications..."
    case SendFailed(className, error) => "Error sending notification via " + className + ": " + error
    case Stopping => "Stopping script as item is in stock."
    case Waiting => "Waiting 5 minutes before the next check..."
  }

  /** The status line ends with the numeral of the code, which reads back to the code. */
  lemma StatusMessageText(code: int)
    ensures var t := MessageText(UnexpectedStatus(code));
            && |t| > 24 && t[..24] == "Unexpected status code: "
            && (code >= 0 ==> AllDigits(t[24..]) && ParseDigits(t[24..]) == code)
            && (code < 0 ==> t[24] == '-')
  {
    var prefix := "Unexpected status code: ";
    var digits := IntToString(code);
    assert |prefix| == 24;
    assert (prefix + digits)[..24] == prefix;
    assert (prefix + digits)[24..] == digits;
  }

  datatype Event =
    | Post(config: ProductConfig)                       // the request to `config.url` with `RequestBody(config)`
    | Log(message: Message, status: NotificationStatus) // one `ConsoleLogger.log` line
    | Attempt(request: Request, delivery: Delivery)     // one backend call
    | UpdateTitle(stats: Statistics)                    // `update_title`; the shell gets `EscapedTitle(stats)`
    | BlankLine                                         // a bare `print()`
    | Sleep(seconds: nat)

  predicate IsPost(e: Event) { e.Post? }
  predicate IsLog(e: Event) { e.Log? }
  predicate IsAttempt(e: Event) { e.Attempt? }
  predicate IsSleep(e: Event) { e.Sleep? }
  /** The events that set the pace of the loop: the requests and the pauses. */
  predicate IsPostOrSleep(e: Event) { e.Post? || e.Sleep? }

  /** The events of `trace` that satisfy `keep`, in trace order. */
  function Select(trace: seq<Event>, keep: Event -> bool): (r: seq<Event>)
    ensures |r| <= |trace|
    ensures forall i :: 0 <= i < |r| ==> keep(r[i])
    decreases |trace|
  {
    if trace == [] then []
    else (if keep(trace[0]) then [trace[0]] else []) + Select(trace[1..], keep)
  }

  lemma {:induction false} SelectAppend(a: seq<Event>, b: seq<Event>, keep: Event -> bool)
    ensures Select(a + b, keep) == Select(a, keep) + Select(b, keep)
    decreases |a|
  {
    if a == [] {
      assert a + b == b;
    } else {
      assert (a + b)[0] == a[0];
      assert (a + b)[1..] == a[1..] + b;
      SelectAppend(a[1..], b, keep);
    }
  }

  /** Nothing is selected from a trace without matching events. */
  lemma {:induction false} SelectNone(trace: seq<Event>, keep: Event -> bool)
    requires forall i :: 0 <= i < |trace| ==> !keep(trace[i])
    ensures Select(trace, keep) == []
    decreases |trace|
  {
    if trace != [] {
      SelectNone(trace[1..], keep);
    }
  }

  lemma SelectOne(e: Event, keep: Event -> bool)
    ensures Select([e], keep) == if keep(e) then [e] else []
  {
    assert [e][1..] == [];
  }
}
