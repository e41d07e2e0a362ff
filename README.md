# mqtt_onewire_sensors, modelled in Dafny

A Dafny model of the logic in the mqtt_onewire_sensors tools. These tools
collect temperature and humidity readings from one-wire and Zigbee sensors
over MQTT, store them, and plot or export them.

The model covers three parts:

- **Ingesters** (`mqtt_sensors/mqtt_to_sql.py`, `mqtt_to_sql.py`,
  `mqtt_to_rrd.py`). A message topic is matched against a rule table or
  against a regex built from an MQTT topic filter. A JSON payload becomes one
  write per known field (`<node>-t`, `-rh`, `-p`, `-link`, `-v`). Each write
  passes the equal-timestamp dedup map `last_samples`. It then either
  - resolves a series id through the `series_ids` cache and the `series`
    table and appends a row to `samples`, committing once per message; or
  - creates the round-robin database file on first use and runs
    `rrdtool update`.
- **Read side.**
  - The gap-breaking query of `mqtt_sensors/plot_sql.py`.
  - The one-point-per-row InfluxDB export of both `sql_to_influxdb.py`
    copies.
  - The `rrdtool graph` command that `plot_rrds.py` builds for each
    timespan, with its label escaping.
- **The one-wire parser** `parse` of both `mqtt_1w.py` copies. It reads the
  text of a DS18B20's `w1_slave` file as millidegrees Celsius.

## Module layout

- `basics.dfy`: `Option`, sample values, `zip_longest`.
- `text.dfy`: the Python string operations used:
  - `str.strip`, `str.find`, `str.replace`;
  - `'%d'`, `'{:06x}'`;
  - `float()` on integer text.
- `topics.dfy`: the regex language the ingesters compile, `re.match` with
  backtracking, and the topic-filter matching of section 4.7.1 of MQTT 3.1.1.
- `payload.dfy`: JSON documents as `json.loads` returns them, handler faults,
  and the field tables.
- `sql_ingest.dfy`: `get_series_id`, `update_db`, and the JSON field pass
  shared by both SQL ingesters. The state is given both as a value with
  transition functions and as the class `Ingester`, whose methods are proved
  against those functions.
- `sensors_mqtt_to_sql.dfy`, `mqtt_to_sql.dfy`: the two `on_message`
  dispatchers.
- `mqtt_to_rrd.dfy`: the RRD ingester. Its state is the dedup map, the files
  that exist, the commands run and the errors logged. The class is
  `RrdIngester`.
- `sample_table.dfy`: the read-only view of the database, the
  `SELECT (time/60*60) ... ORDER BY time` query and the minute window.
- `influx_export.dfy`, `plot_sql.dfy`, `plot_rrds.dfy`: the three read-side
  tools.
- `onewire.dfy`: `parse`.

Each imperative part of the source is a class or method with loops, proved
against a specification function. The properties are proved about those
functions.

## Model

| member | source | states |
|---|---|---|
| Basics.ZipLongest | mqtt_sensors/plot_sql.py:50 | the pairing has as many pairs as the longer list; pair i holds the i-th element of each list, or the fill value where that list has run out |
| Text.StripSlice | mqtt_1w.py:32 | the stripped line is the line with only its leading and trailing whitespace (in the sense of `str.isspace()`) removed: a slice of the line, and everything outside that slice is whitespace |
| Text.Find | mqtt_1w.py:34 | the result is -1 or an index where the pattern occurs, and the pattern occurs at no earlier index |
| Text.ParseDecimal | mqtt_1w.py:36-37 | `float()` of the decimal text of an integer gives that integer back |
| Text.HexColour | plot_rrds.py:36-41 | a colour below 0x1000000 formats as exactly six hex digits that read back as the colour |
| Topics.MatchPrefixGroup | mqtt_to_sql.py:60-64 | `re.match` of `<prefix>(group)` succeeds exactly when the topic starts with the prefix; the group captures the longest run of its class after the prefix, and nothing after that run has to match |
| Topics.PrefixGroupCompiles | mqtt_to_rrd.py:119-120 | a regex made of plain text followed by `(.*)` or `([^/]*)` compiles to the literals followed by one capture group |
| Topics.PlusFilterMatches | mqtt_to_sql.py:55 | the broker delivers on `<prefix>+` exactly the topics that start with the prefix and hold no `/` after it |
| Topics.PlusRegexExactOnDelivered | mqtt_to_sql.py:18-19 | on every topic delivered for `<prefix>+`, the regex `<prefix>([^/]*)` matches the whole topic, and the group is the level that `+` stood for |
| Topics.MatchedTextIsNode | mqtt_to_rrd.py:85-88 | `match[0]` of `<prefix>(.*)` is present exactly when the topic starts with the prefix, and it is the topic up to its first newline |
| SqlIngest.ResolveRegistry | mqtt_sensors/mqtt_to_sql.py:28-38 | `get_series_id` keeps the cache and table consistent and returns the table's id for the name; a cached name changes nothing; a name in the table is added to the cache; a new name gets an id different from every existing one and is not cached; no other name's id, sample or dedup entry changes |
| SqlIngest.ResolveKeepsValid | mqtt_sensors/mqtt_to_sql.py:28-38 | resolution keeps every remembered timestamp equal to the time of its series' last row |
| SqlIngest.ResolveIdempotent | mqtt_sensors/mqtt_to_sql.py:35-38 | resolving a name twice gives the same id, although a fresh id is not cached |
| SqlIngest.ResolveDistinct | mqtt_sensors/mqtt_to_sql.py:28-38 | two distinct names resolve to distinct ids |
| SqlIngest.ResolveCreationOrder | mqtt_sensors/mqtt_to_sql.py:37-38 | series created later get larger ids |
| SqlIngest.UpdateAcceptsUnlessEqual | mqtt_sensors/mqtt_to_sql.py:41-51 | a numeric sample is suppressed exactly when the source's remembered timestamp equals its own, and then nothing changes; otherwise the timestamp is remembered and exactly one row `(ts, id, value)` is appended uncommitted, under the source's series id; an earlier timestamp is accepted |
| SqlIngest.UpdateRejectsNonNumber | mqtt_sensors/mqtt_to_sql.py:42 | a value that the `:.3f` format rejects raises before the dedup check and changes nothing |
| SqlIngest.RepeatSuppressed | mqtt_sensors/mqtt_to_sql.py:43-46 | the same source and timestamp delivered twice stores one row, whatever the second value is |
| SqlIngest.SuppressedIsStored | mqtt_sensors/mqtt_to_sql.py:43-51 | a suppressed sample's timestamp is that of the last stored row of its series |
| SqlIngest.EarlierTimestampStoredTwice | mqtt_sensors/mqtt_to_sql.py:43-47 | samples at times 5, 6 and 5 are all stored, so one series has two rows at time 5 |
| SqlIngest.CommitKeepsRows | mqtt_sensors/mqtt_to_sql.py:95-96 | a commit moves the pending rows to the committed rows and keeps their order and the consistency |
| SqlIngest.FieldsAppendOnly | mqtt_sensors/mqtt_to_sql.py:73-94 | the field blocks only append rows and commit nothing; on completion, `updated` is true exactly when some row was appended or it already was |
| SqlIngest.JsonCommitsIffAccepted | mqtt_sensors/mqtt_to_sql.py:72-96 | a message commits exactly when a field was accepted; a message that accepts nothing changes nothing; a message that raises keeps its earlier rows uncommitted and skips the commit |
| SqlIngest.NoAcceptNoChange | mqtt_sensors/mqtt_to_sql.py:73-94 | a field pass that accepts no sample leaves the state as it was |
| SqlIngest.FieldsIgnoreUnknownKeys | mqtt_sensors/mqtt_to_sql.py:75-94 | a key outside the field table does not change the result |
| SqlIngest.FieldsAbsent | mqtt_sensors/mqtt_to_sql.py:75-94 | field blocks whose keys are all absent change nothing |
| SqlIngest.FirstFieldStored | mqtt_sensors/mqtt_to_sql.py:72-96 | on an empty database, the first temperature of a node creates series 1 named `<node>-t`, remembers the time and commits one row |
| SqlIngest.Ingester.constructor | mqtt_sensors/mqtt_to_sql.py:21-23 | the two dicts start empty over an existing database |
| SqlIngest.Ingester.GetSeriesId | mqtt_sensors/mqtt_to_sql.py:28-38 | the new state and the returned id are those of the resolution function, and the name's table entry is the id (the same text is at mqtt_to_sql.py:26-36) |
| SqlIngest.Ingester.UpdateDb | mqtt_sensors/mqtt_to_sql.py:41-51 | the new state, the returned flag and the fault are those of `update_db`'s function; consistency is kept (same text at mqtt_to_sql.py:39-49) |
| SqlIngest.Ingester.Commit | mqtt_sensors/mqtt_to_sql.py:96 | the pending rows become committed |
| SqlIngest.Ingester.TryField | mqtt_sensors/mqtt_to_sql.py:75-78 | one `if key in content` block with `updated \|=`, as the field function says |
| SqlIngest.Ingester.HandleJson | mqtt_sensors/mqtt_to_sql.py:72-96 | the blocks in table order, stopping at the first exception, then the commit if a sample was accepted; the result agrees with the JSON-message function (inline in mqtt_to_sql.py:63-87) |
| SensorsMqttToSql.EntryCompiles | mqtt_sensors/mqtt_to_sql.py:99-102 | both table regexes compile to their prefix literals and one `(.*)` group |
| SensorsMqttToSql.AtMostOneEntry | mqtt_sensors/mqtt_to_sql.py:99-102 | no topic matches both table entries |
| SensorsMqttToSql.RoutingTwo | mqtt_sensors/mqtt_to_sql.py:61-69 | with two entries that never both match, at most one handler runs, under `match[0]` |
| SensorsMqttToSql.MessageRouting | mqtt_sensors/mqtt_to_sql.py:61-69 | a `zigbee2mqtt/` or `shelly/` topic is handled once as JSON, under the topic up to its first newline with the prefix kept, and a handler exception becomes the warning; any other topic changes nothing |
| SensorsMqttToSql.ZigbeeNodeIsTopic | mqtt_sensors/mqtt_to_sql.py:67 | a single-line zigbee2mqtt topic is handled under the whole topic as node name |
| SensorsMqttToSql.FirstReadingStored | mqtt_sensors/mqtt_to_sql.py:61-96 | the first temperature on `zigbee2mqtt/kitchen` creates series `zigbee2mqtt/kitchen-t` and commits its row |
| SensorsMqttToSql.HandleEntry | mqtt_sensors/mqtt_to_sql.py:63-69 | one table entry: match, run the handler, and log what it raised |
| SensorsMqttToSql.OnMessage | mqtt_sensors/mqtt_to_sql.py:61-69 | the entries in order, each exception logged and the loop continued; the state and warnings agree with the message function |
| MqttToSql.PlusFilterRegex | mqtt_to_sql.py:19 | a filter `<prefix>+` without wildcards becomes the regex `<prefix>([^/]*)`, which compiles to the literals and one group that stops at a slash |
| MqttToSql.TopicReCompiled | mqtt_to_sql.py:18-19 | `TOPIC_RE` is `zigbee2mqtt/([^/]*)` |
| MqttToSql.DeliveredLevel | mqtt_to_sql.py:60-64 | on every topic delivered for `<prefix>+`, the handler runs under the one level after the prefix |
| MqttToSql.DeliveredNodeIsLevel | mqtt_to_sql.py:55-64 | every topic delivered on `zigbee2mqtt/+` is handled under the level after `zigbee2mqtt/`, without the prefix |
| MqttToSql.DeeperLevel | mqtt_to_sql.py:60-64 | on a deeper topic, which the broker does not deliver for `<prefix>+`, the prefix match still succeeds and takes the first level |
| MqttToSql.DeeperTopicTakesFirstLevel | mqtt_to_sql.py:54-64 | `zigbee2mqtt/<node>/<more>` is handled under `<node>`, and `$SYS/broker/version` is ignored |
| MqttToSql.NoMatchWithoutPrefix | mqtt_to_sql.py:60-61 | a topic without the prefix is ignored silently |
| MqttToSql.FirstReadingStored | mqtt_to_sql.py:58-87 | the first temperature on `zigbee2mqtt/kitchen` creates series `kitchen-t` and commits its row |
| MqttToSql.HandleMatch | mqtt_to_sql.py:60-89 | match the regex, handle under `group(1)`, and log an exception as the warning; agrees with the message function |
| MqttToSql.OnMessage | mqtt_to_sql.py:58-89 | `on_message` with `TOPIC_RE` |
| MqttToRrd.ArchiveSpans | mqtt_to_rrd.py:34-37 | the fine archives span one year of 60-second steps and the coarse ones ten years of hours; both sizes are written in decimal |
| MqttToRrd.CreateArgsShape | mqtt_to_rrd.py:29-47 | the create command line: `rrdtool create <file>`; `--source <src>` exactly when prefilling; `-O --step 60`; one GAUGE `value` with heartbeat 4000 and range -100..10000, renamed `value=<ds>` when prefilling; then the six archives |
| MqttToRrd.PrefillOnlyAddsSource | mqtt_to_rrd.py:29-41 | with and without prefill, the command lines differ only in `--source` and in the data source's rename |
| MqttToRrd.RrdFileInjective | mqtt_to_rrd.py:62 | different sources never share a file name |
| MqttToRrd.UpdateRrdCommands | mqtt_to_rrd.py:54-71 | a number never raises; an equal timestamp does nothing; otherwise the timestamp is remembered whatever rrdtool does, a create runs exactly when the file does not exist, and the update of that file with the reading follows |
| MqttToRrd.CreateOnlyWhenMissing | mqtt_to_rrd.py:62-64 | an existing file gets only the update, and a successful create makes the file exist |
| MqttToRrd.FailuresLogged | mqtt_to_rrd.py:48-71 | a number that is not a duplicate never raises; the errors logged are the create's (`RRD create failed` or the missing tool) when the file was missing, then the update's, each from its own run; nothing is logged exactly when every command run exits with status 0; the file comes to exist exactly when a create was needed and succeeded |
| MqttToRrd.NonNumberRaises | mqtt_to_rrd.py:55 | a value that `%.3f` rejects raises before anything changes |
| MqttToRrd.FloatSource | mqtt_to_rrd.py:113-115 | a float payload is stored under the node name without a suffix; a payload that `float()` rejects raises and changes nothing |
| MqttToRrd.PressureIgnored | mqtt_to_rrd.py:93-110 | the RRD field table has no pressure: a message with only `pressure` changes nothing |
| MqttToRrd.RrdFieldsAbsent | mqtt_to_rrd.py:95-110 | field blocks whose keys are absent change nothing |
| MqttToRrd.RrdFieldsEffect | mqtt_to_rrd.py:93-110 | the field blocks raise exactly when a present field of the table holds a non-number; they only add commands, errors and files; a completed pass has stamped the time under `<node><suffix>` for every present field |
| MqttToRrd.UpdateExtends | mqtt_to_rrd.py:54-71 | one update raises exactly on a non-number, and then changes nothing; otherwise it stamps the timestamp under the source and only adds to the record |
| MqttToRrd.RunErrors | mqtt_to_rrd.py:48-51 | at most one error per run: none exactly on status 0, `create failed` or `update failed` on another status, the missing tool when `rrdtool` is not found |
| MqttToRrd.AtMostOneEntry | mqtt_to_rrd.py:118-121 | no topic matches both entries |
| MqttToRrd.RoutingTwo | mqtt_to_rrd.py:82-90 | with two entries that never both match, at most one handler runs, under `match[0]` |
| MqttToRrd.FloatTopicRouting | mqtt_to_rrd.py:84-90 | a `temperature/<sensor>` topic is stored under the whole topic; a bad float is one warning with no change |
| MqttToRrd.JsonTopicRouting | mqtt_to_rrd.py:84-90 | a `zigbee2mqtt/<node>` topic is handled as JSON under the whole topic |
| MqttToRrd.OtherTopicIgnored | mqtt_to_rrd.py:82-90 | any other topic changes nothing and logs nothing |
| MqttToRrd.RrdIngester.constructor | mqtt_to_rrd.py:22-23 | `last_samples` starts empty and nothing has run |
| MqttToRrd.RrdIngester.Run | mqtt_to_rrd.py:65-71 | the command is recorded and a failure logged, as the execution function says |
| MqttToRrd.RrdIngester.CreateRrd | mqtt_to_rrd.py:26-51 | runs the create command once, logging a failure |
| MqttToRrd.RrdIngester.UpdateRrd | mqtt_to_rrd.py:54-71 | the new state and fault agree with `update_rrd`'s function |
| MqttToRrd.RrdIngester.HandleJson | mqtt_to_rrd.py:93-110 | the field blocks in table order, stopping at the first exception; agrees with the JSON function |
| MqttToRrd.RrdIngester.HandleFloat | mqtt_to_rrd.py:113-115 | agrees with the float handler's function |
| MqttToRrd.RrdIngester.HandleEntry | mqtt_to_rrd.py:85-90 | one entry: match, run its handler under `match[0]`, and log what it raised |
| MqttToRrd.RrdIngester.HandleEntries | mqtt_to_rrd.py:84-90 | the loop over the entries agrees with the entries function |
| MqttToRrd.RrdIngester.OnMessage | mqtt_to_rrd.py:82-90 | `on_message` over `topics` |
| SampleTable.TruncMinuteBounds | mqtt_sensors/sql_to_influxdb.py:30 | `time/60*60` is a whole minute, less than 60 seconds from the time, toward zero |
| SampleTable.TruncMinuteMonotone | mqtt_sensors/sql_to_influxdb.py:30-31 | truncation keeps time order |
| SampleTable.TruncWholeMinute | mqtt_sensors/sql_to_influxdb.py:30 | a whole minute is unchanged |
| SampleTable.Selected | mqtt_sensors/sql_to_influxdb.py:30-32 | every result row comes from a stored row of the series within the bounds |
| SampleTable.SelectedComplete | mqtt_sensors/sql_to_influxdb.py:30-32 | every stored row of the series within the bounds is in the result |
| SampleTable.SelectedCount | mqtt_sensors/sql_to_influxdb.py:30-32 | the result has exactly one entry per stored row in the window (the same `get_series_id` lookup and query at mqtt_sensors/plot_sql.py:22-26 and sql_to_influxdb.py:18-22) |
| SampleTable.SelectedMultiplicity | mqtt_sensors/sql_to_influxdb.py:30-32 | each result row occurs exactly as often as there are stored rows of the series inside the window that truncate to it, duplicates included |
| SampleTable.SortByTime | mqtt_sensors/sql_to_influxdb.py:31 | `ORDER BY time` gives a time-ordered permutation |
| SampleTable.QueryRow | mqtt_sensors/sql_to_influxdb.py:30-32 | each query row is the truncation of a stored row in the window |
| SampleTable.QueryResult | mqtt_sensors/sql_to_influxdb.py:30-32 | the query result is sorted by time and is a permutation of the selected rows; each time is a whole minute between the truncated bounds |
| SampleTable.MinuteWindow | mqtt_sensors/sql_to_influxdb.py:45-46 | the window ends at the whole minute containing `now` and is `span` long |
| InfluxExport.Writes | mqtt_sensors/sql_to_influxdb.py:33-39 | one write per row |
| InfluxExport.WritesAt | mqtt_sensors/sql_to_influxdb.py:33-39 | write k carries row k |
| InfluxExport.UnknownSeriesWritesNothing | mqtt_sensors/sql_to_influxdb.py:26-29 | an unknown series logs an error and writes nothing |
| InfluxExport.KnownSeriesPoints | mqtt_sensors/sql_to_influxdb.py:30-40 | there is one write per stored row with `start <= time <= end`, in time order; each point is a `sample` with the series as field and tag, at a whole minute within the window; the log reports the count; the (time, value) pairs written are, with multiplicity, exactly the minute-truncated stored rows of the series inside the window |
| InfluxExport.WritesConcatenate | mqtt_sensors/sql_to_influxdb.py:50-52 | the series are exported in argument order, each independently |
| InfluxExport.LogConcatenate | mqtt_sensors/sql_to_influxdb.py:50-52 | the log follows the argument order |
| InfluxExport.ExportWindow | mqtt_sensors/sql_to_influxdb.py:45-52 | with a whole-minute span, the exported times lie between `end - span` and `end`, and `end` is at most `now` |
| InfluxExport.WindowWhole | mqtt_sensors/sql_to_influxdb.py:45-46 | with a whole-minute span, both window ends are whole minutes |
| InfluxExport.Exporter.ExportSeries | mqtt_sensors/sql_to_influxdb.py:25-40 | the row loop issues the writes and log of `export_series` (same text at sql_to_influxdb.py:25-40) |
| InfluxExport.Exporter.ExportNamed | mqtt_sensors/sql_to_influxdb.py:50-52 | one iteration of the series loop |
| InfluxExport.Exporter.ExportAll | mqtt_sensors/sql_to_influxdb.py:50-52 | the series loop appends the writes and log of every series in order |
| InfluxExport.Exporter.Export | mqtt_sensors/sql_to_influxdb.py:43-52 | the minute window, then every series in order (same text at sql_to_influxdb.py:43-52) |
| PlotSql.BrokenKeepsReadings | mqtt_sensors/plot_sql.py:38-43 | dropping the dummies gives back the query rows in order |
| PlotSql.BrokenLength | mqtt_sensors/plot_sql.py:40-42 | exactly one dummy per gap |
| PlotSql.BrokenShortSegments | mqtt_sensors/plot_sql.py:38-43 | adjacent readings in the output are at most an hour apart; every dummy is followed, one second later, by the reading it precedes |
| PlotSql.GapBoundary | mqtt_sensors/plot_sql.py:41-42 | a gap of exactly 3600 s is bridged, and 3660 s is broken at `t-1` |
| PlotSql.LoopInsert | mqtt_sensors/plot_sql.py:41-43 | after an insertion, `last_time` is the reading's own time, not the dummy's |
| PlotSql.LoopRevisit | mqtt_sensors/plot_sql.py:40-43 | the shifted reading visited again is not broken a second time |
| PlotSql.BreakGaps | mqtt_sensors/plot_sql.py:38-43 | the insert-while-enumerating loop produces the gap-broken sequence |
| PlotSql.GapStep | mqtt_sensors/plot_sql.py:40-43 | one loop body keeps the loop state and makes progress |
| PlotSql.KnownSeriesLine | mqtt_sensors/plot_sql.py:34-46 | a known series is one line with its legend; its readings are exactly the query from an hour before `start` to an hour after `end`, in time order, at whole minutes |
| PlotSql.UnknownSeriesSkipped | mqtt_sensors/plot_sql.py:30-33 | an unknown series is logged and draws nothing |
| PlotSql.PlotLinesConcat | mqtt_sensors/plot_sql.py:71-72 | pairs are drawn in order and independently, so an unknown series does not stop the rest |
| PlotSql.PlotWindowAt | mqtt_sensors/plot_sql.py:53-57 | the minute window; `hour_count` is the whole hours in the span, and `day_count` the whole days in them |
| PlotSql.Figure.PlotSeries | mqtt_sensors/plot_sql.py:29-46 | adds the series' line and error |
| PlotSql.Figure.PlotPair | mqtt_sensors/plot_sql.py:71-72 | one iteration of the loop |
| PlotSql.Figure.Plot | mqtt_sensors/plot_sql.py:49-72 | series and labels are paired by `zip_longest` with fill value `"sensor"`, the window is computed, and every pair is drawn in order |
| PlotRrds.EscapeRoundTrip | plot_rrds.py:30 | rrdtool's reading of the escaped legend is the label |
| PlotRrds.EscapedColons | plot_rrds.py:30 | every colon in the escaped legend follows a backslash |
| PlotRrds.FormatAt | plot_rrds.py:40-41 | definition k is template k formatted |
| PlotRrds.SeriesDefs | plot_rrds.py:31-41 | seven definitions per series |
| PlotRrds.SensorNamesDistinct | plot_rrds.py:32-38 | different series get different `sensor<i>` names |
| PlotRrds.SeriesColour | plot_rrds.py:36-41 | the line of series i has colour `COLORS[i]` as six hex digits, followed by its escaped legend |
| PlotRrds.PairDefs | plot_rrds.py:29-41 | the seven definitions of one pair |
| PlotRrds.DefsLayout | plot_rrds.py:28-41 | seven definitions per pair, block i for pair i, in order |
| PlotRrds.FixedArgs | plot_rrds.py:43-48 | 34 fixed arguments |
| PlotRrds.GraphArgsLayout | plot_rrds.py:26-49 | the command writes `<outdir>/plot-<timespan>.png`, ends now, starts `now-<timespan>`, is 768 by 256, and ends with the definitions |
| PlotRrds.ExecLogs | plot_rrds.py:42-55 | a run only adds to the log: earlier commands and errors are kept, the command is recorded whatever happens, and exactly one error is added exactly when the run does not exit with status 0 (a non-zero status or a missing rrdtool is logged, never raised) |
| PlotRrds.PlotRaisesIffTooMany | plot_rrds.py:29-55 | `plot` raises exactly when more than nine pairs are left, running and logging nothing; otherwise it runs one command of 34 + 7n arguments |
| PlotRrds.ExhaustedPlots | plot_rrds.py:80-82 | once the iterator is used up, every further graph has no definitions |
| PlotRrds.OnlyFirstPlotDraws | plot_rrds.py:80-82 | as written, only the first timespan's graph draws the series |
| PlotRrds.WeeklyGraphEmpty | plot_rrds.py:75-82 | with one series and the default timespans, four commands run: the daily one has 41 arguments and the weekly one only the 34 fixed ones |
| PlotRrds.EveryPlotDraws | plot_rrds.py:80-82 | with the pairs kept as a list, every timespan's graph draws every pair |
| PlotRrds.Plotter.constructor | plot_rrds.py:78-80 | labels default to none; the rrd files are paired with the labels by `zip_longest` with fill value `"sensor"` |
| PlotRrds.Plotter.Run | plot_rrds.py:42-55 | agrees with the execution function |
| PlotRrds.Plotter.Plot | plot_rrds.py:24-55 | the `enumerate` loop over the shared iterator and the run; agrees with `AfterPlot` |
| PlotRrds.Plotter.PlotAll | plot_rrds.py:75-82 | the loop over the timespans; agrees with `AfterPlots` |
| OneWire.LastThree | mqtt_1w.py:32 | `s[-3:]`: the last three characters, or the whole of a shorter string |
| OneWire.Parse | mqtt_1w.py:31-42 | `Bad CRC` exactly when line 0 exists and its stripped text does not end in `YES`; a missing line exactly when there is no line 0, or only line 0 with `YES`; a reading is never the power-on value (same text at mqtt_sensors/mqtt_1w.py:32-43) |
| OneWire.ReadingIff | mqtt_1w.py:34-40 | the reading is m exactly when the flag is `YES`, line 1 has `t=`, the text after the first `t=` is m, and m/1000 is not 85.0 |
| OneWire.CrcCheckedFirst | mqtt_1w.py:32-33 | a bad flag fails the same way whatever the later lines are |
| OneWire.NoMarkerUnparsable | mqtt_1w.py:41-42 | with no `t=` on line 1, the error is `Unable to parse` |
| OneWire.EscapingFailures | mqtt_1w.py:50-56 | a failure escapes the handler exactly when there are no lines, or the flag is `YES` and either the second line is missing or the text after its `t=` is not a number (same handler at mqtt_sensors/mqtt_1w.py:52-58) |
| OneWire.YesFlag | mqtt_1w.py:32 | a first line ending in `YES` passes the CRC check |
| OneWire.MarkerAfterHead | mqtt_1w.py:34 | the first `t=` is right after a head that has no `=` |
| OneWire.KernelTextRoundTrip | mqtt_1w.py:31-42 | the kernel's text for m millidegrees parses back to m, unless m is 85000, which is rejected |

## Left out

- Timestamps. Each message is given one timestamp `now`. The source calls
  `time.time()` once per field, so two fields of one message could get
  different seconds. All other clock reads, `time.sleep` and the
  `sample_loop` pacing are also left out.
- MQTT plumbing: client construction, TLS, credentials, subscriptions and
  the network loop. `mqtt_sensors/mqtt_connection.py` is not part of this
  model.
- The `on_message` debug log lines are not modelled. Only the warnings are.
- JSON payloads are given already decoded, as a `Document`.
  - A number, bool or other value is kept as "number or not". This is what
    the `:.3f` / `%.3f` formatting decides.
  - Python `float` values are modelled as exact reals. `%f`/`.3f` text and
    rounding are not modelled.
- SQLite:
  - the tables are abstract (name→id, a row sequence with a
    committed/pending split);
  - the SQL parser, foreign keys, durability, transactions across processes
    and read-only URI opening are not modelled;
  - an INSERT never fails in the model.
- SampleTable.SortByTime: the order of rows with equal truncated time is
  unspecified in SQLite. The model sorts stably, and the lemmas only promise
  "sorted and a permutation".
- `rrdtool` itself:
  - each run's outcome (exit status or not installed) is a parameter indexed
    by the command number;
  - its file format and its own rejection of old timestamps are not
    modelled;
  - a successful create is taken to make the file exist.
- `Path` normalisation of the RRD file name. The file is
  `<rrd_path>/<source>.rrd` as text.
  - MqttToRrd.RrdFileInjective is about the file name as text. In the
    source it holds because the `zigbee2mqtt/+` and `temperature/+`
    subscriptions deliver single-level node names, which `Path`
    normalisation cannot merge.
- Rendering: matplotlib, the hour locator chosen when `hour_count < 48`,
  axis limits, the legend's column count and colours in `plot_sql.py`. The
  model keeps the data handed to `ax.plot` and the window numbers.
- `time.time()` in the read-side tools is a float. The model takes `now` as
  whole seconds, which gives the same `end` for `floor(now/60)*60`.
- InfluxDB: the client, `Point` serialisation and asynchronous writes. A
  write is a record of bucket, org, measurement, field, tag and seconds.
- The root `plot_sql.py` is not part of this model. It only hands a pandas
  query to matplotlib, and its labels are never used.
- `shelly_to_mqtt.py` is not part of this model. It is an HTTP handler that
  only logs.
- `argparse` and the `__main__`/`run` bootstrap, except the parts of
  `plot_rrds.py` named in the table.
- PlotRrds.ColorOpts: the colour options are written as the literal tokens
  that formatting `BG_COLOR` and `FG_COLOR` with `06x` produces. They are
  not computed.
- PlotRrds.GraphArgs: the rrd path in a `DEF` is not escaped, as in the
  source. A path with a colon is not analysed.
- OneWire.Parse: `float()` is modelled on integer text only (optional
  whitespace, sign and decimal digits). Text with a decimal point, an
  exponent, `inf` or `nan`, underscores between digits or non-ASCII digits
  count as a non-number.
  - The reading is kept in integer millidegrees, and `t == 85.000` is
    modelled as `m == 85000`.
  - For integer text these agree with the source. Other text is outside the
    model.
- Reading `w1_slave` files, `str.splitlines`, globbing `/sys/bus/w1/devices`
  and the MQTT publish of the reading are I/O. `parse` takes the lines as a
  parameter.
- Dedup and node names:
  - both SQL ingesters dedup on equality only; `SqlIngest.EarlierTimestampStoredTwice`
    shows the consequence;
  - `mqtt_sensors/mqtt_to_sql.py` names series after the whole topic
    (`zigbee2mqtt/kitchen-t`), while `mqtt_to_sql.py` drops the prefix
    (`kitchen-t`).

  Both are as written and are not findings.

## Findings

| source | as written | input that shows it | evidently intended | confidence | as-written member | corrected member |
|---|---|---|---|---|---|---|
| plot_rrds.py:80-82 | `rrds_and_labels` is one `zip_longest` iterator shared by every `plot` call. The first call uses it up, so every later timespan's graph gets no series definitions. | one RRD file and the default timespans `1d 1w 1m 1y`: the `1w`, `1m` and `1y` commands have only the 34 fixed arguments | every timespan's graph draws every series (e.g. `list(zip_longest(...))`) | not executed | PlotRrds.OnlyFirstPlotDraws | PlotRrds.EveryPlotDraws |
