/** One run of the aurora notifier: it looks for a strong solar-flare advisory
    in the alerts feed, picks the forecast periods whose Kp index reaches the
    threshold, and assembles the Telegram message, if any. The HTTP fetches
    arrive as optional feeds (None when the request, its JSON decoding or
    the first use of the payload raised) and the message that would be
    posted is the result. */
module AuroraBot {
  import opened Wrappers
  import opened Text
  import opened TimeFormat
  import opened Filtering

  // ---------------------------------------------------------------------
  // Configuration

  /** Kp values at or above this trigger a forecast line. */
  const KpThreshold: real := 6.0

  /** At most this many forecast lines are shown. */
  const MaxForecastLines: nat := 3

  /** The GitHub event name of a manually started workflow. */
  const ManualDispatch: string := "workflow_dispatch"

  const OvationMapUrl: string :=
    "https://services.swpc.noaa.gov/images/animations/ovation/north/latest.jpg"

  /** A run is a test run exactly when the workflow was started by hand; an
      unset event name reads as the empty string. */
  function IsTestRun(eventName: string): (r: bool)
    ensures r <==> eventName == ManualDispatch
    ensures eventName == "" ==> !r
  {
    eventName == ManualDispatch
  }

  // ---------------------------------------------------------------------
  // Foreign behaviour

  /** A Python float: a finite value, an infinity or not-a-number. */
  datatype Float = Finite(value: real) | PosInf | NegInf | NaN

  /** Python's `x >= bound` for a float and a finite bound: false for NaN. */
  function AtLeast(x: Float, bound: real): (r: bool)
    ensures x.Finite? ==> (r <==> x.value >= bound)
    ensures x.NaN? || x.NegInf? ==> !r
    ensures x.PosInf? ==> r
  {
    match x
    case Finite(v) => v >= bound
    case PosInf => true
    case NegInf => false
    case NaN => false
  }

  /** What the run borrows from libraries: `float()` on a feed value (None
      when it raises), the float's text in an f-string, `datetime.strptime`
      with '%Y-%m-%d %H:%M:%S' (None when it raises) and the pytz conversion
      from UTC to Europe/Berlin (None when it raises, as it does for a time
      that would pass the last representable date). */
  datatype Env = Env(
    parseFloat: string -> Option<Float>,
    showFloat: Float -> string,
    parseUtc: string -> Option<DateTime>,
    toBerlin: DateTime -> Option<DateTime>)

  // ---------------------------------------------------------------------
  // Solar flares

  const FlareCode: string := "Space Weather Message Code: ALTTPX"
  const ClassM: string := "Class M"
  const ClassX: string := "Class X"

  const FlareWarning: string :=
    "\U{1F4A5} **SOLAR FLARE ALARM!**\nEin starker Flare wurde registriert. "
    + "Polarlichter in 1-3 Tagen m\U{F6}glich.\n"

  /** The value of an advisory's `message` field as Python's `in` sees it.
      Text is searched for a substring. A JSON array is searched for an equal
      element and a JSON object for an equal key; neither raises, so both are
      the list of their string members. */
  datatype Message = Str(s: string) | Members(items: seq<string>)

  /** Python's `pat in message`. */
  function Mentions(m: Message, pat: string): (r: bool)
    ensures m.Str? ==> (r <==> Occurs(m.s, pat))
    ensures m.Members? ==> (r <==> exists i :: 0 <= i < |m.items| && m.items[i] == pat)
  {
    match m
    case Str(t) => Contains(t, pat)
    case Members(items) => pat in items
  }

  /** One element of the alerts feed: an object with a `message` field, an
      object without one (None, read as ""), or an element on which reading
      the message raises: one that is not an object, or a message that is
      null, a number or a boolean. */
  datatype Alert = Alert(message: Option<Message>) | Unreadable

  /** The advisory mentions the flare code and a class M or X flare. */
  function IsFlareAlert(a: Alert): (r: bool)
    ensures r ==> a.Alert? && a.message.Some?
    ensures a.Alert? && a.message.Some? && a.message.value.Str? ==>
              var t := a.message.value.s;
              (r <==> Occurs(t, FlareCode) && (Occurs(t, ClassM) || Occurs(t, ClassX)))
  {
    && a.Alert?
    && a.message.Some?
    && Mentions(a.message.value, FlareCode)
    && (Mentions(a.message.value, ClassM) || Mentions(a.message.value, ClassX))
  }

  /** How the scan over the alerts ends: at the first flare advisory, at the
      end of the feed, or at an element that raised. */
  datatype ScanEnd = Hit | Exhausted | Raised

  function ScanAlerts(alerts: seq<Alert>): (r: ScanEnd)
    ensures r == Exhausted <==>
              forall i :: 0 <= i < |alerts| ==> alerts[i].Alert? && !IsFlareAlert(alerts[i])
    decreases |alerts|
  {
    if |alerts| == 0 then Exhausted
    else if alerts[0].Unreadable? then Raised
    else if IsFlareAlert(alerts[0]) then Hit
    else ScanAlerts(alerts[1..])
  }

  /** Some flare advisory is preceded only by readable elements. */
  ghost predicate FlareBeforeFault(alerts: seq<Alert>) {
    exists i :: 0 <= i < |alerts| && IsFlareAlert(alerts[i]) && forall j :: 0 <= j < i ==> alerts[j].Alert?
  }

  /** The warning line, or "" when there is no flare advisory or the feed
      could not be read. */
  function CheckSolarFlares(feed: Option<seq<Alert>>): (r: string)
    ensures r == FlareWarning || r == ""
    ensures feed.None? ==> r == ""
  {
    if feed.Some? && ScanAlerts(feed.value) == Hit then FlareWarning else ""
  }

  /** The scan stops with a hit exactly when a flare advisory comes before any
      element that raises. */
  lemma {:induction false} ScanHitIff(alerts: seq<Alert>)
    ensures ScanAlerts(alerts) == Hit <==> FlareBeforeFault(alerts)
    decreases |alerts|
  {
    if |alerts| == 0 {
    } else if alerts[0].Unreadable? {
    } else if IsFlareAlert(alerts[0]) {
      assert FlareBeforeFault(alerts) by {
        assert IsFlareAlert(alerts[0]);
      }
    } else {
      var tail := alerts[1..];
      ScanHitIff(tail);
      if FlareBeforeFault(alerts) {
        var i :| 0 <= i < |alerts| && IsFlareAlert(alerts[i]) && forall j :: 0 <= j < i ==> alerts[j].Alert?;
        assert i > 0;
        assert IsFlareAlert(tail[i - 1]);
        assert forall j :: 0 <= j < i - 1 ==> tail[j] == alerts[j + 1];
      }
      if FlareBeforeFault(tail) {
        var i :| 0 <= i < |tail| && IsFlareAlert(tail[i]) && forall j :: 0 <= j < i ==> tail[j].Alert?;
        assert alerts[i + 1] == tail[i];
        assert forall j :: 0 < j < i + 1 ==> alerts[j] == tail[j - 1];
      }
    }
  }

  /** The flare check reports the warning exactly when some advisory is a
      class M or X flare advisory that no unreadable element precedes. */
  lemma FlareCheckIff(alerts: seq<Alert>)
    ensures CheckSolarFlares(Some(alerts)) == FlareWarning <==> FlareBeforeFault(alerts)
    ensures CheckSolarFlares(Some(alerts)) == "" <==> !FlareBeforeFault(alerts)
  {
    ScanHitIff(alerts);
  }

  /** On a feed whose elements all read cleanly, the warning appears exactly
      when some advisory reports a class M or X flare. */
  lemma FlareCheckReadableFeed(alerts: seq<Alert>)
    requires forall i :: 0 <= i < |alerts| ==> alerts[i].Alert?
    ensures CheckSolarFlares(Some(alerts)) == FlareWarning <==>
            exists i :: 0 <= i < |alerts| && IsFlareAlert(alerts[i])
  {
    ScanHitIff(alerts);
  }

  // ---------------------------------------------------------------------
  // Kp forecast

  /** One forecast row as text: time stamp, Kp value, further columns. */
  type Row = seq<string>

  /** `utc_to_local`: the Berlin time of a NOAA time stamp, or the stamp
      itself when parsing it or converting it raises. */
  function UtcToLocal(env: Env, stamp: string): (r: string)
    ensures env.parseUtc(stamp).None? ==> r == stamp
    ensures env.parseUtc(stamp).Some? && env.toBerlin(env.parseUtc(stamp).value).None? ==> r == stamp
    ensures env.parseUtc(stamp).Some? && env.toBerlin(env.parseUtc(stamp).value).Some? ==>
              IsDisplayShape(r)
              && ReadDisplay(r) == FieldsShown(env.toBerlin(env.parseUtc(stamp).value).value)
  {
    match env.parseUtc(stamp)
    case None => stamp
    case Some(t) =>
      match env.toBerlin(t)
      case None => stamp
      case Some(local) => FormatDisplay(local)
  }

  /** `float(entry[1])`: None when the row has no second column or the value
      is not a number. */
  function RowKp(env: Env, row: Row): (kp: Option<Float>)
    ensures |row| < 2 ==> kp.None?
    ensures |row| >= 2 ==> kp == env.parseFloat(row[1])
  {
    if |row| < 2 then None else env.parseFloat(row[1])
  }

  /** The row's second column parses to a Kp at or above the threshold. */
  function Qualifies(env: Env, row: Row): (r: bool)
    ensures r <==>
              |row| >= 2 && env.parseFloat(row[1]).Some? && AtLeast(env.parseFloat(row[1]).value, KpThreshold)
  {
    RowKp(env, row).Some? && AtLeast(RowKp(env, row).value, KpThreshold)
  }

  const KpLinePrefix: string := "\U{1F4C8} Kp "

  /** One forecast line: the Kp value, then the row's local time. */
  function ForecastLine(env: Env, row: Row): string
    requires Qualifies(env, row)
  {
    KpLinePrefix + env.showFloat(RowKp(env, row).value) + " am " + UtcToLocal(env, row[0])
  }

  /** A forecast line opens with the chart symbol and "Kp ", shows the row's
      Kp value right after them, and ends with the row's local time, which is
      the raw stamp when it could not be converted. */
  lemma ForecastLineLayout(env: Env, row: Row)
    requires Qualifies(env, row)
    ensures StartsWith(ForecastLine(env, row), KpLinePrefix)
    ensures EndsWith(ForecastLine(env, row), UtcToLocal(env, row[0]))
    ensures OccursAt(ForecastLine(env, row), env.showFloat(RowKp(env, row).value), |KpLinePrefix|)
  {
    var kp := env.showFloat(RowKp(env, row).value);
    var head := KpLinePrefix + kp + " am ";
    var time := UtcToLocal(env, row[0]);
    assert ForecastLine(env, row) == head + time;
    assert (head + time)[..|KpLinePrefix|] == KpLinePrefix;
    assert (head + time)[|KpLinePrefix|..|KpLinePrefix| + |kp|] == kp;
    assert (head + time)[|head|..] == time;
  }

  /** Every row's Kp parses, so the scan runs to the end. */
  ghost predicate AllParse(env: Env, rows: seq<Row>) {
    forall i :: 0 <= i < |rows| ==> RowKp(env, rows[i]).Some?
  }

  /** `Qualifies` as a filter over the rows. */
  function RowFilter(env: Env): Row -> bool {
    row => Qualifies(env, row)
  }

  /** `ForecastLine` as a mapping of the rows the filter keeps. */
  function RowLine(env: Env): Row --> string {
    row requires Qualifies(env, row) => ForecastLine(env, row)
  }

  /** Reference definition: the lines of all qualifying rows in feed order. */
  ghost function QualifyingLines(env: Env, rows: seq<Row>): (r: seq<string>)
    ensures |r| <= |rows|
  {
    FilterMap(rows, RowFilter(env), RowLine(env))
  }

  /** The forecast loop: None when some row's Kp fails to parse (the
      exception ends the loop), else the lines of the qualifying rows. */
  method CollectForecast(env: Env, rows: seq<Row>) returns (found: Option<seq<string>>)
    ensures found.Some? <==> AllParse(env, rows)
    ensures found.Some? ==> found.value == QualifyingLines(env, rows)
  {
    var lines: seq<string> := [];
    var i := 0;
    while i < |rows|
      invariant 0 <= i <= |rows|
      invariant AllParse(env, rows[..i])
      invariant lines == QualifyingLines(env, rows[..i])
    {
      var row := rows[i];
      var kp := RowKp(env, row);
      if kp.None? {
        assert !AllParse(env, rows) by {
          assert RowKp(env, rows[i]).None?;
        }
        return None;
      }
      assert rows[..i + 1] == rows[..i] + [row];
      QualifyingLinesSnoc(env, rows[..i], row);
      if AtLeast(kp.value, KpThreshold) {
        lines := lines + [ForecastLine(env, row)];
      }
      i := i + 1;
    }
    assert rows[..i] == rows;
    return Some(lines);
  }

  /** `fore_res[1:]`: the rows after the header; nothing for an empty feed. */
  function AfterHeader(feed: seq<Row>): (rows: seq<Row>)
    ensures |feed| > 0 ==> [feed[0]] + rows == feed
    ensures |feed| == 0 ==> rows == []
  {
    if |feed| == 0 then [] else feed[1..]
  }

  const ForecastHeading: string := "\n**Vorhersage hohe Aktivit\U{E4}t:**\n"

  /** `found_kp[:3]`. */
  function FirstLines(lines: seq<string>): (r: seq<string>)
    ensures |r| <= MaxForecastLines
    ensures |r| == if |lines| < MaxForecastLines then |lines| else MaxForecastLines
    ensures r == lines[..|r|]
  {
    if |lines| <= MaxForecastLines then lines else lines[..MaxForecastLines]
  }

  /** The forecast section: the heading, the first lines joined by
      newlines, and a final newline. Newline-free lines can be read back from
      between the heading and the final newline. */
  function Section(lines: seq<string>): (r: string)
    ensures |r| > |ForecastHeading| && StartsWith(r, ForecastHeading) && EndsWith(r, "\n")
    ensures |lines| > 0 && (forall i :: 0 <= i < |lines| ==> '\n' !in lines[i]) ==>
              Split(r[|ForecastHeading|..|r| - 1], '\n') == FirstLines(lines)
  {
    var first := FirstLines(lines);
    var body := Join(first, '\n');
    var r := ForecastHeading + body + "\n";
    assert r[..|ForecastHeading|] == ForecastHeading;
    assert r[|ForecastHeading|..|r| - 1] == body;
    if |lines| > 0 && (forall i :: 0 <= i < |lines| ==> '\n' !in lines[i]) then
      assert forall i :: 0 <= i < |first| ==> first[i] == lines[i];
      SplitJoin(first, '\n');
      r
    else
      r
  }

  /** What the forecast check adds to the alert text. */
  ghost function ForecastText(env: Env, feed: Option<seq<Row>>): (r: string)
    ensures feed.None? ==> r == ""
    ensures r != "" <==>
              feed.Some? && AllParse(env, AfterHeader(feed.value))
              && exists i :: 0 <= i < |AfterHeader(feed.value)| && Qualifies(env, AfterHeader(feed.value)[i])
    ensures r != "" ==> StartsWith(r, ForecastHeading)
  {
    if feed.None? then ""
    else
      var rows := AfterHeader(feed.value);
      if !AllParse(env, rows) then ""
      else
        var lines := QualifyingLines(env, rows);
        QualifyingLinesEmpty(env, rows);
        if |lines| == 0 then "" else Section(lines)
  }

  /** The forecast part of `check_aurora`: empty when the feed failed, a row
      raised or nothing qualifies, else the heading and the first lines. */
  method CheckForecast(env: Env, feed: Option<seq<Row>>) returns (text: string)
    ensures text == ForecastText(env, feed)
    ensures text != "" <==>
              feed.Some? && AllParse(env, AfterHeader(feed.value))
              && QualifyingLines(env, AfterHeader(feed.value)) != []
  {
    text := "";
    if feed.Some? {
      var found := CollectForecast(env, AfterHeader(feed.value));
      if found.Some? && |found.value| > 0 {
        text := Section(found.value);
      }
    }
  }

  /** Appending a row adds its line exactly when it qualifies. */
  lemma QualifyingLinesSnoc(env: Env, rows: seq<Row>, row: Row)
    ensures QualifyingLines(env, rows + [row])
            == QualifyingLines(env, rows) + (if Qualifies(env, row) then [ForecastLine(env, row)] else [])
  {
    FilterMapSnoc(rows, row, RowFilter(env), RowLine(env));
  }

  /** The reference list is empty exactly when no row qualifies. */
  lemma QualifyingLinesEmpty(env: Env, rows: seq<Row>)
    ensures QualifyingLines(env, rows) == [] <==> forall i :: 0 <= i < |rows| ==> !Qualifies(env, rows[i])
  {
    FilterMapEmpty(rows, RowFilter(env), RowLine(env));
  }

  /** Each line of the reference list comes from a qualifying row, in feed
      order, and every qualifying row contributes its line. */
  lemma QualifyingLinesExact(env: Env, rows: seq<Row>) returns (idx: seq<nat>)
    ensures |idx| == |QualifyingLines(env, rows)|
    ensures forall k :: 0 <= k < |idx| ==>
              idx[k] < |rows| && Qualifies(env, rows[idx[k]])
              && QualifyingLines(env, rows)[k] == ForecastLine(env, rows[idx[k]])
    ensures forall k, l :: 0 <= k < l < |idx| ==> idx[k] < idx[l]
    ensures forall i :: 0 <= i < |rows| && Qualifies(env, rows[i]) ==> i in idx
  {
    idx := FilterMapIndices(rows, RowFilter(env), RowLine(env));
  }

  /** The first lines of the reference list are those of the first
      qualifying rows, in feed order; a qualifying row is left out only when
      three earlier rows already fill the selection. */
  lemma FirstQualifying(env: Env, rows: seq<Row>) returns (idx: seq<nat>)
    ensures |idx| == |FirstLines(QualifyingLines(env, rows))|
    ensures forall k :: 0 <= k < |idx| ==>
              idx[k] < |rows| && Qualifies(env, rows[idx[k]])
              && FirstLines(QualifyingLines(env, rows))[k] == ForecastLine(env, rows[idx[k]])
    ensures forall k, l :: 0 <= k < l < |idx| ==> idx[k] < idx[l]
    ensures forall i :: 0 <= i < |rows| && Qualifies(env, rows[i]) && i !in idx ==>
              |idx| == MaxForecastLines && idx[MaxForecastLines - 1] < i
  {
    var lines := QualifyingLines(env, rows);
    var all := QualifyingLinesExact(env, rows);
    var first := FirstLines(lines);
    idx := all[..|first|];
    forall k | 0 <= k < |idx|
      ensures idx[k] < |rows| && Qualifies(env, rows[idx[k]]) && first[k] == ForecastLine(env, rows[idx[k]])
    {
      assert idx[k] == all[k] && first[k] == lines[k];
    }
    forall k, l | 0 <= k < l < |idx|
      ensures idx[k] < idx[l]
    {
      assert idx[k] == all[k] && idx[l] == all[l];
    }
    forall i | 0 <= i < |rows| && Qualifies(env, rows[i]) && i !in idx
      ensures |idx| == MaxForecastLines && idx[MaxForecastLines - 1] < i
    {
      assert i in all;
      IndexBeyondPrefix(all, |idx|, i);
    }
  }

  /** In an increasing index list, an index outside the first `m` entries
      lies beyond the last of them. */
  lemma IndexBeyondPrefix(all: seq<nat>, m: nat, i: nat)
    requires 0 < m <= |all|
    requires forall k, l :: 0 <= k < l < |all| ==> all[k] < all[l]
    requires i in all && i !in all[..m]
    ensures all[m - 1] < i
  {
    var k :| 0 <= k < |all| && all[k] == i;
  }

  /** The forecast section, when present, is the heading followed by one to
      three newline-joined lines, the first of the reference list for the
      rows after the header (which `FirstQualifying` ties to rows). */
  lemma ForecastSectionContents(env: Env, feed: seq<Row>)
    requires ForecastText(env, Some(feed)) != ""
    ensures var lines := FirstLines(QualifyingLines(env, AfterHeader(feed)));
            && 1 <= |lines| <= MaxForecastLines
            && ForecastText(env, Some(feed)) == ForecastHeading + Join(lines, '\n') + "\n"
  {
    var rows := AfterHeader(feed);
    assert AllParse(env, rows) && |QualifyingLines(env, rows)| > 0;
  }

  /** A row's Kp failing to parse drops the whole section, however many
      rows qualified before it. */
  lemma ForecastDroppedOnBadRow(env: Env, feed: seq<Row>, i: nat)
    requires i < |AfterHeader(feed)| && RowKp(env, AfterHeader(feed)[i]).None?
    ensures ForecastText(env, Some(feed)) == ""
  {
  }

  /** The header row is never examined: replacing it changes nothing. */
  lemma ForecastIgnoresHeader(env: Env, h1: Row, h2: Row, rest: seq<Row>)
    ensures ForecastText(env, Some([h1] + rest)) == ForecastText(env, Some([h2] + rest))
  {
    assert AfterHeader([h1] + rest) == rest == AfterHeader([h2] + rest);
  }

  /** A feed holding at most the header contributes nothing. */
  lemma HeaderOnlyForecast(env: Env, feed: seq<Row>)
    requires |feed| <= 1
    ensures ForecastText(env, Some(feed)) == ""
  {
    assert AfterHeader(feed) == [];
  }

  /** A row below the threshold never yields a line: removing it leaves the
      reference list unchanged. */
  lemma BelowThresholdIrrelevant(env: Env, before: seq<Row>, row: Row, after: seq<Row>)
    requires RowKp(env, row).Some? && !AtLeast(RowKp(env, row).value, KpThreshold)
    ensures QualifyingLines(env, before + [row] + after) == QualifyingLines(env, before + after)
  {
    FilterMapSkip(before, row, after, RowFilter(env), RowLine(env));
  }

  // ---------------------------------------------------------------------
  // Message

  const UpdateBanner: string := "\U{1F30C} **AURORA UPDATE** \U{1F30C}\n"

  const MapLink: string := "\n\U{1F5FA}\U{FE0F} [Aktuelle 30-Min-Vorhersage](" + OvationMapUrl + ")"

  const NoActivity: string := "Aktuell keine erh\U{F6}hten Werte (Kp < 6)."

  /** The test banner's text before the clock time. */
  const TestBannerHead: string := "\U{1F9EA}" + " **BOT TESTLAUF**\nVerbindung zur NOAA steht. Zeit in DE: "

  /** The test banner opens with the flask and shows the German clock time
      `HH:MM:SS` of `now` right after its fixed text. */
  function TestBanner(now: DateTime): (r: string)
    ensures |r| > 0 && r[0] == '\U{1F9EA}'
    ensures var k := |TestBannerHead|;
            && k + 8 <= |r|
            && IsClockShape(r[k..k + 8])
            && ReadClock(r[k..k + 8]) == ClockFields(now.hour, now.minute, now.second)
  {
    var clock := FormatClock(now);
    var r := TestBannerHead + clock + "\n\n";
    assert r[|TestBannerHead|..|TestBannerHead| + 8] == clock;
    r
  }

  /** The final assembly: the message to send, or None when nothing is
      sent. */
  function ComposeMessage(alertText: string, isTest: bool, now: DateTime): (r: Option<string>)
    ensures r.Some? <==> alertText != "" || isTest
    ensures r.Some? ==> r.value != ""
  {
    if alertText != "" || isTest then
      var banner := if isTest then TestBanner(now) else "";
      var body :=
        if alertText != "" then UpdateBanner + alertText + MapLink
        else if isTest then NoActivity
        else "";
      var msg := banner + body;
      if msg != "" then Some(msg) else None
    else
      None
  }

  /** With alert text the message is the optional test banner, the update
      banner, the alert text and the map link. */
  lemma AlertMessageLayout(alertText: string, isTest: bool, now: DateTime)
    requires alertText != ""
    ensures ComposeMessage(alertText, isTest, now)
            == Some((if isTest then TestBanner(now) else "") + UpdateBanner + alertText + MapLink)
  {
    var banner := if isTest then TestBanner(now) else "";
    var body := UpdateBanner + alertText + MapLink;
    assert body != "" by {
      assert |body| >= |alertText| > 0;
    }
    assert ComposeMessage(alertText, isTest, now) == Some(banner + body);
    assert banner + body == banner + UpdateBanner + alertText + MapLink by {
      ConcatAssoc(banner, UpdateBanner, alertText, MapLink);
    }
  }

  /** A test run without alert text sends the test banner and the
      no-activity line. */
  lemma QuietTestMessage(now: DateTime)
    ensures ComposeMessage("", true, now) == Some(TestBanner(now) + NoActivity)
  {
  }

  /** Without alert text, the event name alone decides: a manually started
      run sends the test banner and the no-activity line, any other run
      sends nothing. */
  lemma QuietRunByEvent(eventName: string, now: DateTime)
    ensures ComposeMessage("", IsTestRun(eventName), now)
            == if eventName == ManualDispatch then Some(TestBanner(now) + NoActivity) else None
  {
    if eventName == ManualDispatch {
      QuietTestMessage(now);
    }
  }

  /** The map link ends the message exactly when there is alert text. */
  lemma MapLinkIffAlerts(alertText: string, isTest: bool, now: DateTime)
    requires ComposeMessage(alertText, isTest, now).Some?
    ensures EndsWith(ComposeMessage(alertText, isTest, now).value, MapLink) <==> alertText != ""
  {
    var msg := ComposeMessage(alertText, isTest, now).value;
    if alertText == "" {
      assert msg[|msg| - 1] == '.';
      assert MapLink[|MapLink| - 1] == ')';
    } else {
      AlertMessageLayout(alertText, isTest, now);
    }
  }

  /** The message opens with the test banner's flask exactly on a test
      run. */
  lemma TestBannerIffTestRun(alertText: string, isTest: bool, now: DateTime)
    requires ComposeMessage(alertText, isTest, now).Some?
    ensures ComposeMessage(alertText, isTest, now).value[0] == '\U{1F9EA}' <==> isTest
  {
    if alertText != "" {
      AlertMessageLayout(alertText, isTest, now);
      assert UpdateBanner[0] != '\U{1F9EA}';
    } else {
      QuietTestMessage(now);
    }
  }

  /** Outside a test run the alert text sits between the update banner and
      the map link and can be read back from the message. */
  lemma AlertTextRecoverable(alertText: string, now: DateTime)
    requires alertText != ""
    ensures var msg := ComposeMessage(alertText, false, now).value;
            |msg| == |UpdateBanner| + |alertText| + |MapLink|
            && msg[|UpdateBanner|..|msg| - |MapLink|] == alertText
  {
    AlertMessageLayout(alertText, false, now);
  }

  // ---------------------------------------------------------------------
  // One run

  /** `check_aurora`: the flare line comes first, the forecast section
      second, and a failure in either leaves the other in place. */
  method CheckAurora(env: Env, eventName: string, now: DateTime,
                     alertsFeed: Option<seq<Alert>>, forecastFeed: Option<seq<Row>>)
    returns (sent: Option<string>)
    ensures sent == ComposeMessage(CheckSolarFlares(alertsFeed) + ForecastText(env, forecastFeed),
                                   IsTestRun(eventName), now)
  {
    var alertText := "";
    var flare := CheckSolarFlares(alertsFeed);
    alertText := alertText + flare;
    assert alertText == flare;
    var forecast := CheckForecast(env, forecastFeed);
    alertText := alertText + forecast;
    sent := ComposeMessage(alertText, IsTestRun(eventName), now);
  }

  /** A flare warning reaches the message whatever the forecast feed holds,
      right after the update banner (and the test banner on a test run). */
  lemma FlareAlwaysReported(env: Env, eventName: string, now: DateTime,
                            alertsFeed: Option<seq<Alert>>, forecastFeed: Option<seq<Row>>)
    requires CheckSolarFlares(alertsFeed) == FlareWarning
    ensures var r := ComposeMessage(CheckSolarFlares(alertsFeed) + ForecastText(env, forecastFeed),
                                    IsTestRun(eventName), now);
            r.Some? && Occurs(r.value, FlareWarning)
  {
    var forecast := ForecastText(env, forecastFeed);
    var isTest := IsTestRun(eventName);
    AlertMessageLayout(FlareWarning + forecast, isTest, now);
    var banner := if isTest then TestBanner(now) else "";
    Regroup(banner, UpdateBanner, FlareWarning, forecast, MapLink);
    OccursBetween(banner + UpdateBanner, FlareWarning, forecast + MapLink);
  }

  /** Outside a test run, a run with no flare advisory and no forecast
      section sends nothing. */
  lemma QuietRunSendsNothing(env: Env, eventName: string, now: DateTime,
                             alertsFeed: Option<seq<Alert>>, forecastFeed: Option<seq<Row>>)
    requires !IsTestRun(eventName)
    requires CheckSolarFlares(alertsFeed) == "" && ForecastText(env, forecastFeed) == ""
    ensures ComposeMessage(CheckSolarFlares(alertsFeed) + ForecastText(env, forecastFeed),
                           IsTestRun(eventName), now) == None
  {
  }
}
