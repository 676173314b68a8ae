# Aurora notifier: a Dafny model of one run

The aurora notifier runs on a schedule. It reads the NOAA Space Weather
Prediction Center's alerts feed and its planetary Kp index forecast, and then
posts at most one Telegram message. This project models one run of
`check_aurora` as pure logic:

- **Flare check** (`check_solar_flares`). It looks for an advisory carrying the
  code `Space Weather Message Code: ALTTPX` that also mentions `Class M` or
  `Class X`. The result is a fixed warning line or the empty string.
- **Forecast check.** It skips the header row of the forecast feed. It keeps
  the rows whose Kp is at least 6, in feed order, and formats each one with its
  time converted to German local time (`utc_to_local`). It shows at most the
  first three. If any row's Kp cannot be read, the whole section is dropped.
- **Assembly.** There are three outcomes:
  - Alert text exists: the message is the optional test banner, the
    `AURORA UPDATE` banner, the alert text and the link to the latest OVATION
    map.
  - Test run without alert text: the message is the test banner and the line
    saying there are no elevated values.
  - Otherwise nothing is sent.

The model has five modules:

- `Wrappers` (`wrappers.dfy`): `Option`.
- `Text` (`text.dfy`): Python's substring test `pat in s`, and `sep.join`
  together with its inverse `split`.
- `TimeFormat` (`time_format.dfy`): calendar timestamps and the two `strftime`
  layouts the bot prints, each proved to read back to the fields it shows.
- `Filtering` (`filtering.dfy`): keeping the elements of a sequence that pass
  a filter and mapping them, with the positions of what was kept.
- `AuroraBot` (`aurora_bot.dfy`): the bot itself.

The fetches are inputs. An alerts or forecast feed is an `Option`. `None`
means one of three things: the HTTP request raised, its JSON decoding raised,
or the first use of the payload raised. That first use is the `for` loop over
the alerts payload (aurora_bot.py:38), which raises for a number, a boolean or
null. For the forecast payload it is the slice `fore_res[1:]`
(aurora_bot.py:64), which raises for an object as well. A payload that can be
iterated but has the wrong shape is still `Some`:

- A string of alerts yields its characters, and an object yields its keys.
  Each of them is an `Unreadable` element.
- A string of forecast rows yields its characters, and each is a one-column
  row.

A forecast cell that is not a string is represented by its `str()` text. A
JSON number as the Kp is one example: `Env.parseFloat` gives `float()` of the
original value. A null stamp is another: `utc_to_local` returns it unchanged,
and the line shows `None`.

The message that would be posted is the result: `Some(text)` means it is sent,
`None` means nothing is sent. Library behaviour is passed in as the fields of
`Env`:

- `float()` on a feed value, which is partial: `None` when it raises.
- The float's text inside an f-string.
- `datetime.strptime` with `'%Y-%m-%d %H:%M:%S'`, which is partial: `None`
  when it raises.
- The pytz conversion from UTC to Europe/Berlin, which is partial as well:
  `None` when it raises. It raises, for example, for `9999-12-31 23:30:00`,
  whose Berlin time lies past the last representable date.

The current time and the GitHub event name are also parameters.

Python floats are modelled as `Float`: a finite real, either infinity, or NaN.
This keeps `float('nan') >= 6` false and `float('inf') >= 6` true.

Four small functions are the definitions of single source lines:

- `IsTestRun` is the event-name test of line 52.
- `RowKp` is `float(entry[1])` of line 65.
- `AtLeast` is the float comparison `kp_val >= KP_THRESHOLD` of line 66.
- `Qualifies` combines `RowKp` and `AtLeast`.

Their meaning is stated by the lemmas about the runs and rows that use them:
`QuietRunByEvent`, `QualifyingLinesSnoc`, `QualifyingLinesExact`,
`BelowThresholdIrrelevant` and `ForecastDroppedOnBadRow`.

An alerts-feed element is one of three things:

- An object with a `message` field. The field's value is a `Message`:
  - Text is `Str`, searched for substrings.
  - A JSON array is searched for an equal element, and a JSON object for an
    equal key. Neither raises, so both become `Members`, the list of their
    string members.
- An object without a `message` field. Its message is `None` and reads as "".
- `Unreadable`: an element on which reading the message raises. That is an
  element that is not an object, or a message that is null, a number or a
  boolean.

The exception from an `Unreadable` element ends the whole scan. The outer
`try` turns it into "no flare", even when a later advisory would have matched.
`ScanHitIff` states exactly this.

Two consequences of the code's order of operations:

- One unparseable row drops the forecast section, even after three rows have
  already qualified (`ForecastDroppedOnBadRow`).
- The row's Kp is read before its time stamp. So a row shorter than two
  columns raises, like a bad Kp value.

The facts about keeping some rows and formatting them are proved once, in
`Filtering` (`filtering.dfy`), for any filter and any mapping. The forecast
lemmas instantiate them with `Qualifies` and `ForecastLine`.

## Model

| member | source | states |
|---|---|---|
| Text.Contains | aurora_bot.py:40-41 | Python's `pat in s` is true exactly when `pat` occurs at some index of `s` |
| Text.OccursInTail | aurora_bot.py:40-41 | when the pattern does not start the string, it occurs in the string exactly when it occurs in the tail |
| Text.OccursBetween | aurora_bot.py:86 | a string placed between two others occurs in the result, at the length of the first |
| Text.SplitPiece | aurora_bot.py:71 | a piece without the separator splits to itself, and stays the first piece when followed by the separator |
| Text.SplitJoin | aurora_bot.py:71 | `"\n".join` of lines without newlines can be split back into exactly those lines |
| TimeFormat.Pad2 | aurora_bot.py:30 | a number below 100 is written as two digits that read back to the number |
| TimeFormat.FormatDisplay | aurora_bot.py:30 | `strftime('%d.%m. %H:%M Uhr')` has the shape `dd.mm. HH:MM Uhr` and reads back to the day, month, hour and minute |
| TimeFormat.FormatClock | aurora_bot.py:83 | `strftime('%H:%M:%S')` has the shape `HH:MM:SS` and reads back to the hour, minute and second |
| AuroraBot.Mentions | aurora_bot.py:40-41 | `pat in message` is a substring test on text and an equal-member test on an array or object |
| AuroraBot.IsFlareAlert | aurora_bot.py:40-41 | only an element with a message can match, and a text message matches exactly when it contains the ALTTPX code and `Class M` or `Class X` |
| AuroraBot.ScanAlerts | aurora_bot.py:38-44 | the loop runs to the end without returning exactly when every element is readable and none is a flare advisory |
| AuroraBot.CheckSolarFlares | aurora_bot.py:34-45 | the flare check yields only the fixed warning line or "", and "" when the feed could not be fetched |
| AuroraBot.ScanHitIff | aurora_bot.py:38-44 | the scan stops on a hit exactly when some class M or X ALTTPX advisory comes before every element that raises |
| AuroraBot.FlareCheckIff | aurora_bot.py:36-45 | the flare check returns the warning exactly when some class M or X ALTTPX advisory comes before every unreadable element, and returns "" exactly when none does |
| AuroraBot.FlareCheckReadableFeed | aurora_bot.py:38-42 | on a feed whose elements all read cleanly, the warning appears exactly when some advisory carries the code and class M or X |
| AuroraBot.UtcToLocal | aurora_bot.py:23-32 | a stamp that does not parse, or whose Berlin conversion raises, is returned unchanged; otherwise the result has the shape `dd.mm. HH:MM Uhr` and shows the day, month, hour and minute of the Berlin time |
| AuroraBot.ForecastLineLayout | aurora_bot.py:67-68 | a forecast line starts with the chart symbol and `Kp `, shows the row's Kp value right after them, and ends with the row's local time, which is the raw stamp when it could not be converted |
| AuroraBot.QualifyingLines | aurora_bot.py:64-68 | the loop never collects more lines than there are rows after the header |
| AuroraBot.QualifyingLinesEmpty | aurora_bot.py:64-70 | no line is collected exactly when no row after the header qualifies |
| AuroraBot.CollectForecast | aurora_bot.py:63-68 | the loop fails exactly when some row's Kp does not parse; otherwise it yields the lines of all rows with Kp at least 6, in feed order |
| AuroraBot.AfterHeader | aurora_bot.py:64 | `fore_res[1:]` is the feed without its first element, and nothing for an empty feed |
| AuroraBot.FirstLines | aurora_bot.py:71 | `found_kp[:3]` is the prefix of length min(3, n) |
| Text.Join | aurora_bot.py:71 | joining no lines gives ""; otherwise the result starts with the first line and ends with the last |
| AuroraBot.Section | aurora_bot.py:71 | the section starts with the heading and ends with a newline; for newline-free lines, splitting what lies between them gives back the first three lines |
| AuroraBot.ForecastText | aurora_bot.py:61-73 | the forecast part is "" when the feed failed, is non-empty exactly when every row after the header parses and some row qualifies, and then starts with the heading |
| AuroraBot.CheckForecast | aurora_bot.py:61-73 | the section is non-empty exactly when the feed was fetched, every row after the header parses and some row qualifies |
| AuroraBot.QualifyingLinesExact | aurora_bot.py:64-68 | the collected lines correspond one to one, in increasing feed order, to the rows whose Kp is at least 6, and every such row is present |
| AuroraBot.QualifyingLinesSnoc | aurora_bot.py:64-68 | one more row adds its line to the end exactly when its Kp reaches the threshold |
| AuroraBot.FirstQualifying | aurora_bot.py:70-71 | the shown lines belong to the first qualifying rows in feed order; a qualifying row is left out only after three earlier ones |
| AuroraBot.ForecastSectionContents | aurora_bot.py:70-71 | a present section is the heading followed by one to three newline-joined lines, the first of those collected from the rows after the header |
| AuroraBot.ForecastDroppedOnBadRow | aurora_bot.py:61-73 | one row after the header whose Kp cannot be read removes the whole forecast contribution |
| AuroraBot.ForecastIgnoresHeader | aurora_bot.py:64 | the header row is never examined: replacing it leaves the forecast contribution unchanged |
| AuroraBot.HeaderOnlyForecast | aurora_bot.py:64-71 | an empty or header-only feed contributes nothing |
| Filtering.FilterMapIndices | aurora_bot.py:64-68 | keeping and mapping elements gives, in increasing order, one entry per kept element, each the image of that element, and leaves no kept element out |
| Filtering.FilterMapSkip | aurora_bot.py:66 | an element the filter rejects can be removed without changing what is kept |
| AuroraBot.BelowThresholdIrrelevant | aurora_bot.py:65-68 | a row with Kp below 6 never yields a line: removing it changes nothing |
| AuroraBot.TestBanner | aurora_bot.py:83 | the test banner opens with the flask symbol, and right after its fixed text it shows `now` as `HH:MM:SS`, reading back to the hour, minute and second |
| AuroraBot.ComposeMessage | aurora_bot.py:80-91 | a message is produced exactly when there is alert text or it is a test run, and a produced message is never empty |
| AuroraBot.AlertMessageLayout | aurora_bot.py:82-86 | with alert text the message is the optional test banner, the update banner, the alert text and the map link, in that order |
| AuroraBot.QuietRunByEvent | aurora_bot.py:52 | without alert text, a run started as `workflow_dispatch` sends the test banner and the no-activity line, and a run with any other event name sends nothing |
| AuroraBot.QuietTestMessage | aurora_bot.py:87-88 | a test run without alert text sends the test banner followed by the no-elevated-values line |
| AuroraBot.MapLinkIffAlerts | aurora_bot.py:77-88 | the message ends with the map link exactly when there is alert text |
| AuroraBot.TestBannerIffTestRun | aurora_bot.py:82-83 | the message starts with the test banner's symbol exactly on a test run |
| AuroraBot.AlertTextRecoverable | aurora_bot.py:86 | outside a test run, the alert text is the part of the message between the update banner and the map link |
| AuroraBot.CheckAurora | aurora_bot.py:47-91 | the alert text is the flare line followed by the forecast section, each computed independently, and the message is assembled from it |
| AuroraBot.FlareAlwaysReported | aurora_bot.py:57-58 | a detected flare warning appears in the sent message whatever the forecast feed holds |
| AuroraBot.QuietRunSendsNothing | aurora_bot.py:80 | outside a test run, with no flare and no forecast section, nothing is sent |

## Left out

- HTTP fetching with `requests.get` (aurora_bot.py:37, 62). This is I/O. Its
  outcome is the `Option` feed passed in.
- The Telegram POST in `send_telegram_message` (aurora_bot.py:18-21). It is
  fire-and-forget I/O. The message that would be posted is the result of
  `CheckAurora`.
- Reading `TELEGRAM_TOKEN`, `CHAT_ID` and `GITHUB_EVENT_NAME` from the
  environment (aurora_bot.py:7-11). The event name is a parameter. An unset
  variable is passed as the empty string.
- `datetime.now` and the pytz Europe/Berlin conversion with daylight saving
  (aurora_bot.py:28-30, 48-49). These are library behaviour. The clock time is
  a parameter and the conversion is `Env.toBerlin`.
- The grammar `datetime.strptime` accepts (aurora_bot.py:27). This is library
  behaviour and appears as the partial function `Env.parseUtc`. Only its
  success or failure matters to the model.
- Python's `float()` and the float's text in `f"Kp {kp_val}"` (aurora_bot.py:65,
  68). These are floating-point library behaviour, passed in as
  `Env.parseFloat` and `Env.showFloat`.
- The diagnostic `print` of a forecast error (aurora_bot.py:73). It has no
  effect on the message.
- Telegram's Markdown rendering of the message. The model treats the message
  as plain text.
- BelowThresholdIrrelevant: it states that a sub-threshold row contributes no
  line to the selected lines. It is not stated as a substring fact about the
  final message text, because the opaque float text and time stamps could
  coincide with other text.
