# AirUp stock checker, modelled in Dafny

The AirUp stock checker is a Python script (`main.py`). It repeatedly POSTs a cart request for one bottle to the shop. It reads the reply as an error, as "out of stock" (a 200 reply containing `OUT_OF_STOCK`) or as "in stock". It keeps four counters and shows two of them in the console title. On the first in-stock reply it notifies every registered backend, a desktop popup and a Discord webhook, and stops. Otherwise it waits five minutes and checks again.

The model turns every side effect into data:

- The HTTP reply of each check is an input (`Checker.HttpResult`).
- Each backend carries the environment's answer to being called (`Notifications.Reply`).
- Everything the script does to the outside world is returned as a trace of `Effects.Event` values: the request, log lines, backend calls, title updates, blank lines and sleeps.

The modules follow the script's structure:

- `Text`: the Python string operations used: one-character `str.replace`, the `in` test, `str()` of an integer, and small scanners that read produced text back.
- `TitleEscape`: the eight-step escape chain applied to the console title.
- `Stats`: the `Statistics` counters, the counter invariant, and the escaped title.
- `Product`: `ProductConfig` and the request body.
- `Effects`: statuses, log messages, Discord payload types and the event trace.
- `Notifications`: the Discord colour and emoji maps, the webhook payload, the two backends, and the `_notify_all` fan-out.
- `Checker`: one call of `check_availability`.
- `Polling`: the `main` loop, and the cadence of requests and sleeps it keeps.
- `Startup`: the script as a whole.

Each operation is paired with something it is proved against:

- The escape chain is proved equal to a per-character reference, and an unescaping function recovers its input.
- The request body and the Discord statistics field are each read back by a parser, and the round trip is proved.
- The colour map is proved against its inverse.
- The check is proved against an independent statement of what "in stock" means. That statement uses substring occurrence, not the `in` scan.
- The fan-out and the loop are proved against counts and orders of events in the trace. The loop's requests and sleeps are proved equal to an independent reference cadence.

The body builder splices the configuration in without JSON escaping. `Product.RequestBodyNotEscaped` shows that two configurations with different cart ids post the same body. `Product.RequestBodyRoundTrip` shows that the body is unambiguous when no value contains a double quote.

## Model

| member | source | states |
|---|---|---|
| `Text.ContainsIffOccurs` | main.py:171 | the `in` test used on the reply body holds exactly when the marker occurs at some index of the body |
| `Text.IntToString` | main.py:186 | `str()` of the status code starts with `-` exactly for negative codes, the digits read back to the code's magnitude, and there is no leading zero except in `0` itself |
| `TitleEscape.EscapeAppend` | main.py:44 | the replacement chain distributes over concatenation, so it acts on each character independently |
| `TitleEscape.PlainUnchanged` | main.py:44 | a title with none of the eight special characters (parentheses, exclamation mark, caret, ampersand, pipe, angle brackets) comes out of the chain unchanged |
| `TitleEscape.EscapeDoubled` | main.py:44 | because `^` is replaced after them, `(`, `)` and `!` each come out with two carets |
| `TitleEscape.EscapeQuoted` | main.py:44 | the caret, ampersand, pipe and both angle brackets each come out with a single caret |
| `TitleEscape.EscapeSingle` | main.py:44 | on one character the chain agrees with the per-character reference |
| `TitleEscape.EscapeIsPerCharacter` | main.py:44 | the whole chain equals escaping every character on its own by the reference rule |
| `TitleEscape.EscapeTwoPipes` | main.py:44 | plain text around two pipe separators keeps the text and puts a caret before each separator |
| `TitleEscape.UnescapeEscape` | main.py:44 | escaping loses nothing: unescaping the escaped title gives back the title |
| `Stats.NumeralIsPlain` | main.py:42 | a counter's decimal numeral contains no character the escape chain touches |
| `Stats.EscapedTitle` | main.py:40-44 | the title is plain text around its two pipe separators, so the escaped console title is the fixed text with a caret before each pipe and the out-of-stock and in-stock numerals unchanged |
| `Product.RequestBodyText` | main.py:154-159 | the body is the five fixed JSON fragments with cart id, bottle, flavor, country and language spliced in, in that order |
| `Product.ReadSplicedRoundTrip` | main.py:154-159 | text built by splicing quote-free values between quote-led labels reads back to exactly those values |
| `Product.RequestBodyRoundTrip` | main.py:154-159 | when no field contains a double quote, the body determines all five fields |
| `Product.RequestBodyNotEscaped` | main.py:154-159 | the values are not escaped: two configurations with different cart ids produce the same body |
| `Effects.StatusMessageText` | main.py:186 | the status line is the fixed prefix followed by `str()` of the code, whose digits read back to the code |
| `Notifications.ColorOf` | main.py:71-76 | every status has a 24-bit embed colour from which the status is read back |
| `Notifications.StatusMapsDistinct` | main.py:71-83 | distinct statuses get distinct colours and distinct emoji |
| `Notifications.ReadLabelledRoundTrip` | main.py:93-96 | labelled counter text reads back to exactly the counters it was built from |
| `Notifications.StatsTextRoundTrip` | main.py:92-97 | the "Check Statistics" field text carries all four counters of the snapshot |
| `Notifications.DiscordPayload` | main.py:85-102 | one embed with one field; its colour decodes to the request's status, its title starts with the status emoji and ends with the request title, its description is the message, and its field carries the counters |
| `Notifications.FanOut` | main.py:196-202 | the fan-out produces only backend calls and ERROR log lines |
| `Notifications.FanOutAppend` | main.py:196-202 | fanning out to two lists of backends is fanning out to each in turn |
| `Notifications.FanOutIsolation` | main.py:196-202 | backend i is called, and its failure logged, regardless of the backends before it, and the backends after it behave as if it were absent |
| `Notifications.FanOutAttempts` | main.py:196-202 | every backend is called exactly once, in list order, with the same request, whatever the backends reply |
| `Notifications.FanOutErrorLines` | main.py:196-202 | the fan-out logs exactly one line per backend that raised |
| `Notifications.NotifyAll` | main.py:196-202 | the loop as written, call then error line on a raise, produces the fan-out trace |
| `Checker.ClassifyMeaning` | main.py:170-171 | the reply is classified "in stock" exactly for a 200 reply without the marker, "out of stock" exactly for a 200 reply with it, and "error" exactly otherwise |
| `Checker.Check` | main.py:161-194 | the result is true exactly when the reply is in stock; an error bumps total and error count, out of stock bumps total and out-of-stock count, in stock bumps total and in-stock count; the trace is exactly the request, then one line ("Still out of stock..." at WARNING, "IN STOCK!..." at SUCCESS, the status-code line or the exception line at ERROR, according to the reply), then on the in-stock branch only the whole fan-out to the backends with the new counters, then the title update showing the new counters |
| `Checker.OutcomeLine` | main.py:170-192 | the line logged after the request is the exception line at ERROR for a transport failure, the status-code line at ERROR for a non-200 reply, "Still out of stock..." at WARNING when the marker occurs, and "IN STOCK!..." at SUCCESS otherwise |
| `Checker.CheckCountsOnce` | main.py:161-194 | each check adds one to the total and exactly one to the three outcome counters, so it keeps the counter invariant |
| `Checker.CheckPostsOnce` | main.py:164-168 | each check makes exactly one availability request and never sleeps |
| `Checker.NotifiedAttempts` | main.py:176-181 | the notifications call every backend in order with the alert when the product is available, and nothing otherwise |
| `Checker.CheckQuiet` | main.py:170-194 | on the out-of-stock and error branches no backend is called |
| `Checker.CheckNotifies` | main.py:176-181 | on the in-stock branch every backend is called once, in order, with the SUCCESS alert and the counters that include this check |
| `Polling.Run` | main.py:233-240 | the loop checks outcomes in order up to and including the first in-stock one and stops there, or checks all of them when none is in stock; the total grows by the number of checks, the in-stock count by one exactly when the product was found, and the counter invariant is kept |
| `Polling.RunStopsAtFirst` | main.py:233-236 | the loop finds the product exactly when some outcome is in stock, and no earlier outcome was |
| `Polling.RunPosts` | main.py:233-234 | one availability request per check |
| `Polling.RunSleeps` | main.py:237-240 | one sleep for each check that did not find the product, and none for the one that did |
| `Polling.RunCadence` | main.py:233-240 | the requests and sleeps of a run alternate exactly as the reference cadence says: a request per check, a five-minute sleep after each check that did not find the product, no sleep before the first check and none after the one that found it |
| `Polling.RunSleepsArePolls` | main.py:240 | every sleep lasts 300 seconds |
| `Polling.RunAttempts` | main.py:233-236 | the backends are called only if the product was found; then each is called once, in list order, with the SUCCESS alert and the final counters |
| `Polling.RunEndsWithStop` | main.py:234-236 | a run that found the product ends with the SUCCESS stop line |
| `Startup.Script` | main.py:204-240 | the script starts from zeroed counters with a title update and the start line, then runs the loop over the outcomes: it checks them up to and including the first in-stock one, or all of them; its trace after the two opening events is the loop's trace, and it ends with consistent counters whose total is the number of checks and whose in-stock count is 1 exactly when the product was found |

## Left out

- The HTTP requests to the shop and to the Discord webhook: network I/O. The shop's reply is an input per check. The webhook call is an event whose failure is the backend's `Raised` reply.
- The `plyer` desktop popup: an OS side effect. It is recorded as a `Popup` delivery with its title, message and 10-second timeout.
- `os.system` for the title and for clearing the console, and the `os.name` choice between `title` and an escape sequence: shell side effects. A title update is an event carrying the counters; the string handed to the shell is `Stats.EscapedTitle` of them. Clearing the console is not modelled.
- `time.sleep`, the log timestamps and the embed's `timestamp`: wall-clock time. Sleeping is a `Sleep(300)` event; the timestamps are dropped.
- The colorama colours of `ConsoleLogger`: presentation only. A log line is its message and status.
- The request headers and the placeholder configuration and webhook URL in `main`: constant data with no behaviour. `Startup.Script` takes the configuration and the backends as parameters.
- The `isinstance` loop that hands the shared `Statistics` object to the Discord backend: the counters are passed to the payload builder explicitly, as the snapshot taken after this check's update.
- `NotificationService` as an abstract base class: the two concrete backends are the cases of `Notifications.ServiceKind`.
- Exceptions other than `RequestException` inside `check_availability`, for example from the logger or the title command: logging and title updates are treated as infallible.
- Each backend's reply is fixed per backend and not per call. The fan-out runs at most once per run, so this loses nothing.
- The endless `while True` loop is modelled over a finite sequence of outcomes. When the sequence runs out before the product is found, the run is cut at that point.
