/** The MQTT-to-RRD ingester, mqtt_to_rrd.py: one round-robin database file
    per source under a directory, created on demand with `rrdtool create`,
    fed with `rrdtool update`, with the same equal-timestamp dedup as the
    SQL ingesters. Running `rrdtool` is an effect outside the program: the
    model records every command line in order and takes each run's result
    from a parameter. */
module MqttToRrd {
  import opened Basics
  import opened Text
  import opened Payload
  import opened Topics

  /** `365*24*60`: one year of one-minute rows. */
  const HighResSamples := 365 * 24 * 60
  /** `10*365*24`: ten years of one-hour rows. */
  const LowResSamples := 10 * 365 * 24

  /** The six round-robin archives: average, maximum and minimum, each at
      one-step and at sixty-step consolidation. */
  function Archives(): (r: seq<string>)
  {
    var hi := Decimal(HighResSamples);
    var lo := Decimal(LowResSamples);
    ["RRA:AVERAGE:0.5:1:" + hi, "RRA:AVERAGE:0.5:60:" + lo,
     "RRA:MAX:0.5:1:" + hi, "RRA:MAX:0.5:60:" + lo,
     "RRA:MIN:0.5:1:" + hi, "RRA:MIN:0.5:60:" + lo]
  }

  /** The data-source definition: a GAUGE named `value`, `rename` being
      `=<ds>` when it takes over a prefill source's data source. */
  function DataSource(rename: string): string
  {
    "DS:value" + rename + ":GAUGE:4000:-100:10000"
  }

  /** `create_rrd`'s command line; `prefill` is the optional
      `(prefill_src, prefill_ds)` pair. */
  function CreateArgs(file: string, prefill: Option<(string, string)>): seq<string>
  {
    var opts := if prefill.Some? then ["--source", prefill.value.0] else [];
    var ds := if prefill.Some? then "=" + prefill.value.1 else "";
    ["rrdtool", "create", file] + opts
      + ["-O", "--step", "60", DataSource(ds)]
      + Archives()
  }

  /** The archives keep one year at the 60-second step and ten years at
      hour resolution, and their sizes are written in decimal. */
  lemma ArchiveSpans()
    ensures HighResSamples * 60 == 365 * 24 * 3600
    ensures LowResSamples * 60 * 60 == 10 * 365 * 24 * 3600
    ensures ParseInt(Decimal(HighResSamples)) == Some(HighResSamples)
    ensures ParseInt(Decimal(LowResSamples)) == Some(LowResSamples)
  {
    ParseDecimal(HighResSamples);
    ParseDecimal(LowResSamples);
  }

  /** The command line: `rrdtool create <file>`, the `--source` option
      exactly when prefilling, overwrite, a 60-second step, one GAUGE data
      source named `value` (renamed from the prefill's data source when
      prefilling) with heartbeat 4000 and range -100..10000, then the six
      archives. With and without prefill the lines differ only in those two
      places. */
  lemma CreateArgsShape(file: string, prefill: Option<(string, string)>)
    ensures var a := CreateArgs(file, prefill);
      var k := if prefill.Some? then 2 else 0;
      && |a| == 13 + k
      && a[..3] == ["rrdtool", "create", file]
      && (prefill.Some? ==> a[3..5] == ["--source", prefill.value.0])
      && a[3 + k..6 + k] == ["-O", "--step", "60"]
      && a[6 + k] == DataSource(if prefill.Some? then "=" + prefill.value.1 else "")
      && a[7 + k..] == Archives()
  {
    var a := CreateArgs(file, prefill);
    var k := if prefill.Some? then 2 else 0;
    assert |Archives()| == 6;
    assert a[7 + k..] == Archives();
  }

  /** With and without prefill the command lines differ only in the
      `--source` option and the data source's rename. */
  lemma PrefillOnlyAddsSource(file: string, src: string, ds: string)
    ensures var a := CreateArgs(file, Some((src, ds)));
      var b := CreateArgs(file, None);
      && |a| == |b| + 2
      && a[..3] == b[..3] && a[3..5] == ["--source", src] && a[5..8] == b[3..6] && a[9..] == b[7..]
      && b[6] == DataSource("") && a[8] == DataSource("=" + ds)
  {
    CreateArgsShape(file, Some((src, ds)));
    CreateArgsShape(file, None);
  }

  /** The file of a source: `Path(rrd_path, "<source>.rrd")`. */
  function RrdFile(rrdPath: string, source: string): string
  {
    rrdPath + "/" + source + ".rrd"
  }

  /** Different sources never share a file. */
  lemma RrdFileInjective(rrdPath: string, a: string, b: string)
    requires RrdFile(rrdPath, a) == RrdFile(rrdPath, b)
    ensures a == b
  {
    var fa, fb := RrdFile(rrdPath, a), RrdFile(rrdPath, b);
    var n := |rrdPath| + 1;
    assert |a| == |b|;
    forall i | 0 <= i < |a| ensures a[i] == b[i] {
      assert fa[n + i] == a[i] && fb[n + i] == b[i];
    }
  }

  /** A command the ingester runs: `create_rrd(file)`, or `rrdtool update
      <file> "<time>:<value>"` (the `%d:%f` text is kept as its two
      numbers). */
  datatype Command =
    | Create(file: string, prefill: Option<(string, string)>)  // runs CreateArgs(file, prefill)
    | Update(file: string, time: int, value: Value)

  /** What gets logged at error level. */
  datatype RrdError = CreateFailed | UpdateFailed | ToolMissing

  /** The ingester's state: the dedup map, the files that exist, the
      commands run so far and the errors logged. */
  datatype RrdState = RrdState(lastSamples: map<string, int>, files: set<string>,
                               commands: seq<Command>, errors: seq<RrdError>)

  /** The environment: the directory and the result of the `i`-th command
      run. */
  datatype Env = Env(rrdPath: string, run: nat -> RunResult)

  /** What one run logs: nothing on status 0, the failure of a create or of
      an update on another status, the exception when `rrdtool` is missing. */
  function RunErrors(res: RunResult, create: bool): (e: seq<RrdError>)
    ensures |e| <= 1 && (e == [] <==> res == Exit(0))
    ensures e == [CreateFailed] <==> create && res.Exit? && res.code != 0
    ensures e == [UpdateFailed] <==> !create && res.Exit? && res.code != 0
    ensures e == [ToolMissing] <==> res == NotFound
  {
    match res
    case NotFound => [ToolMissing]
    case Exit(code) => if code == 0 then [] else if create then [CreateFailed] else [UpdateFailed]
  }

  /** Running one command: it is recorded; a non-zero status or a missing
      tool is logged; a successful create makes the file exist. */
  function Exec(st: RrdState, env: Env, cmd: Command): (r: RrdState)
  {
    var res := env.run(|st.commands|);
    var err := RunErrors(res, cmd.Create?);
    var made := if cmd.Create? && res == Exit(0) then {cmd.file} else {};
    st.(commands := st.commands + [cmd], errors := st.errors + err, files := st.files + made)
  }

  /** `update_rrd`: a non-number raises at the `%.3f` log line; an equal
      timestamp is suppressed; otherwise the timestamp is remembered, the
      file created when it does not exist, and the update run. Failures of
      `rrdtool` are logged, never raised. */
  function AfterUpdateRrd(st: RrdState, env: Env, ts: int, source: string, value: JsonValue)
    : Result<RrdState>
  {
    if value.NonNumber? then Raise(st, NotANumber)
    else if source in st.lastSamples && st.lastSamples[source] == ts then Ok(st)
    else
      var st1 := st.(lastSamples := st.lastSamples[source := ts]);
      var file := RrdFile(env.rrdPath, source);
      var st2 := if file in st1.files then st1 else Exec(st1, env, Create(file, None));
      Ok(Exec(st2, env, Update(file, ts, value.v)))
  }

  /** A handler step: it completes with a new state or raises, leaving the
      state reached so far. */
  datatype Result<T> = Ok(st: T) | Raise(st: T, fault: Fault)

  /** The RRD field blocks in table order; the first one that raises ends
      the pass. There is no `updated` flag and no commit. */
  function AfterRrdFields(st: RrdState, env: Env, node: string, fields: map<string, JsonValue>,
                          rules: seq<FieldRule>, now: int): Result<RrdState>
    decreases |rules|
  {
    if rules == [] then Ok(st)
    else if rules[0].key !in fields then AfterRrdFields(st, env, node, fields, rules[1..], now)
    else
      match AfterUpdateRrd(st, env, now, node + rules[0].suffix, fields[rules[0].key])
      case Raise(st1, f) => Raise(st1, f)
      case Ok(st1) => AfterRrdFields(st1, env, node, fields, rules[1..], now)
  }

  /** `handle_json_topic`. */
  function AfterRrdJson(st: RrdState, env: Env, node: string, doc: Document, now: int): Result<RrdState>
  {
    match doc
    case Malformed => Raise(st, BadJson)
    case Scalar => Raise(st, NotAMapping)
    case Listlike(members) =>
      if exists i :: 0 <= i < |RrdFields| && RrdFields[i].key in members then Raise(st, NotAMapping)
      else Ok(st)
    case Object(fields) => AfterRrdFields(st, env, node, fields, RrdFields, now)
  }

  /** `handle_float_topic`: `float(payload)`, then one update under the
      node name itself. */
  function AfterFloat(st: RrdState, env: Env, node: string, payload: Option<Value>, now: int): Result<RrdState>
  {
    match payload
    case None => Raise(st, BadFloat)
    case Some(v) => AfterUpdateRrd(st, env, now, node, Number(v))
  }

  // ---------------------------------------------------------------------
  // Properties of one update

  /** A number never raises. It is suppressed exactly when the remembered
      timestamp equals `ts`, and then nothing happens. Otherwise `ts` is
      remembered (whether or not `rrdtool` then succeeds), a create is run
      exactly when the source's file does not exist, and the last command is
      the update of that file with `(ts, v)`. */
  lemma UpdateRrdCommands(st: RrdState, env: Env, ts: int, source: string, v: Value)
    ensures AfterUpdateRrd(st, env, ts, source, Number(v)).Ok?
    ensures var r := AfterUpdateRrd(st, env, ts, source, Number(v)).st;
      var file := RrdFile(env.rrdPath, source);
      if source in st.lastSamples && st.lastSamples[source] == ts then r == st
      else
        && r.lastSamples == st.lastSamples[source := ts]
        && (file in st.files ==> r.commands == st.commands + [Update(file, ts, v)])
        && (file !in st.files ==>
              r.commands == st.commands + [Create(file, None), Update(file, ts, v)])
        && st.files <= r.files
  {
  }

  /** Once a source's file exists, later readings never run a create for
      it, and a successful create leaves it existing. */
  lemma CreateOnlyWhenMissing(st: RrdState, env: Env, ts: int, source: string, v: Value)
    requires !(source in st.lastSamples && st.lastSamples[source] == ts)
    ensures var r := AfterUpdateRrd(st, env, ts, source, Number(v)).st;
      var file := RrdFile(env.rrdPath, source);
      && (file in st.files ==> file in r.files && |r.commands| == |st.commands| + 1)
      && (file !in st.files && env.run(|st.commands|) == Exit(0) ==> file in r.files)
  {
    UpdateRrdCommands(st, env, ts, source, v);
  }

  /** `rrdtool` failures are logged, one error per failing command, and
      never raised. When the file is missing the create is run `n`-th and
      the update after it; otherwise the update is run `n`-th. The file
      comes to exist exactly when a create was needed and succeeded. */
  lemma FailuresLogged(st: RrdState, env: Env, ts: int, source: string, v: Value)
    requires !(source in st.lastSamples && st.lastSamples[source] == ts)
    ensures AfterUpdateRrd(st, env, ts, source, Number(v)).Ok?
    ensures var r := AfterUpdateRrd(st, env, ts, source, Number(v)).st;
      var file := RrdFile(env.rrdPath, source);
      var n := |st.commands|;
      var missing := file !in st.files;
      var updateRun := if missing then env.run(n + 1) else env.run(n);
      && r.errors == st.errors + (if missing then RunErrors(env.run(n), true) else [])
                    + RunErrors(updateRun, false)
      && r.files == st.files + (if missing && env.run(n) == Exit(0) then {file} else {})
      && (r.errors == st.errors <==> (missing ==> env.run(n) == Exit(0)) && updateRun == Exit(0))
  {
  }

  /** A non-number raises before anything changes. */
  lemma NonNumberRaises(st: RrdState, env: Env, ts: int, source: string)
    ensures AfterUpdateRrd(st, env, ts, source, NonNumber) == Raise(st, NotANumber)
  {
  }

  /** A float payload is stored under the node name without a suffix; a
      payload `float()` rejects raises before anything changes. */
  lemma FloatSource(st: RrdState, env: Env, node: string, payload: Option<Value>, now: int)
    ensures payload.None? ==> AfterFloat(st, env, node, payload, now) == Raise(st, BadFloat)
    ensures payload.Some? ==>
      AfterFloat(st, env, node, payload, now) == AfterUpdateRrd(st, env, now, node, Number(payload.value))
  {
  }

  /** The RRD field pass never stores pressure: a message whose only known
      key is `pressure` leaves the state unchanged. */
  lemma PressureIgnored(st: RrdState, env: Env, node: string, p: JsonValue, now: int)
    ensures AfterRrdJson(st, env, node, Object(map["pressure" := p]), now) == Ok(st)
  {
    var fields := map["pressure" := p];
    assert forall i :: 0 <= i < |RrdFields| ==> RrdFields[i].key != "pressure";
    RrdFieldsAbsent(st, env, node, fields, RrdFields, now);
  }

  lemma {:induction false} RrdFieldsAbsent(st: RrdState, env: Env, node: string,
                                           fields: map<string, JsonValue>, rules: seq<FieldRule>, now: int)
    requires forall i :: 0 <= i < |rules| ==> rules[i].key !in fields
    ensures AfterRrdFields(st, env, node, fields, rules, now) == Ok(st)
    decreases |rules|
  {
    if rules != [] {
      assert rules[0].key !in fields;
      RrdFieldsAbsent(st, env, node, fields, rules[1..], now);
    }
  }

  /** `b` is `a` with more commands run and more errors logged: nothing
      recorded is lost and no file disappears. */
  predicate Extends(a: RrdState, b: RrdState)
  {
    && |a.commands| <= |b.commands| && b.commands[..|a.commands|] == a.commands
    && |a.errors| <= |b.errors| && b.errors[..|a.errors|] == a.errors
    && a.files <= b.files
  }

  lemma ExtendsTrans(a: RrdState, b: RrdState, c: RrdState)
    requires Extends(a, b) && Extends(b, c)
    ensures Extends(a, c)
  {
    assert c.commands[..|a.commands|] == c.commands[..|b.commands|][..|a.commands|];
    assert c.errors[..|a.errors|] == c.errors[..|b.errors|][..|a.errors|];
  }

  /** One update either raises with the state untouched or stamps `ts`
      under the source and only adds to the record. */
  lemma UpdateExtends(st: RrdState, env: Env, ts: int, source: string, value: JsonValue)
    ensures var o := AfterUpdateRrd(st, env, ts, source, value);
      && (o.Raise? <==> value.NonNumber?)
      && (o.Raise? ==> o.st == st)
      && (o.Ok? ==> o.st.lastSamples == st.lastSamples[source := ts] && Extends(st, o.st))
  {
  }

  /** The field pass raises exactly when a present field in the table holds
      a non-number; it only adds to the record; a timestamp already equal
      to `now` stays so; and a pass that completes has stamped `now` under
      the source of every present field. */
  lemma {:induction false} RrdFieldsEffect(st: RrdState, env: Env, node: string,
                                           fields: map<string, JsonValue>, rules: seq<FieldRule>, now: int)
    ensures var o := AfterRrdFields(st, env, node, fields, rules, now);
      && (o.Raise? <==> exists i :: 0 <= i < |rules| && rules[i].key in fields && fields[rules[i].key].NonNumber?)
      && Extends(st, o.st)
      && (forall k :: k in st.lastSamples && st.lastSamples[k] == now ==>
            k in o.st.lastSamples && o.st.lastSamples[k] == now)
      && (o.Ok? ==> forall i :: 0 <= i < |rules| && rules[i].key in fields ==>
            node + rules[i].suffix in o.st.lastSamples && o.st.lastSamples[node + rules[i].suffix] == now)
    decreases |rules|
  {
    var o := AfterRrdFields(st, env, node, fields, rules, now);
    if rules == [] {
      assert st.commands[..|st.commands|] == st.commands;
      assert st.errors[..|st.errors|] == st.errors;
    } else if rules[0].key !in fields {
      RrdFieldsEffect(st, env, node, fields, rules[1..], now);
      assert forall i :: 1 <= i < |rules| ==> rules[i] == rules[1..][i - 1];
    } else {
      var u := AfterUpdateRrd(st, env, now, node + rules[0].suffix, fields[rules[0].key]);
      UpdateExtends(st, env, now, node + rules[0].suffix, fields[rules[0].key]);
      if u.Raise? {
        assert st.commands[..|st.commands|] == st.commands;
        assert st.errors[..|st.errors|] == st.errors;
      } else {
        RrdFieldsEffect(u.st, env, node, fields, rules[1..], now);
        ExtendsTrans(st, u.st, o.st);
        assert forall i :: 1 <= i < |rules| ==> rules[i] == rules[1..][i - 1];
      }
    }
  }

  // ---------------------------------------------------------------------
  // Routing

  /** Which handler a `topic_data` entry names. */
  datatype Handler = JsonHandler | FloatHandler

  /** The entries: `zigbee2mqtt/(.*)` to `handle_json_topic`,
      `temperature/(.*)` to `handle_float_topic`. */
  const Entries: seq<(string, Handler)> := [("zigbee2mqtt/", JsonHandler), ("temperature/", FloatHandler)]

  function RunHandler(st: RrdState, env: Env, h: Handler, node: string, msg: Message, now: int)
    : Result<RrdState>
  {
    match h
    case JsonHandler => AfterRrdJson(st, env, node, msg.json, now)
    case FloatHandler => AfterFloat(st, env, node, msg.float, now)
  }

  /** One entry of `on_message`: when its regex matches, its handler runs
      under `match[0]`, and what it raises is logged as a warning. */
  function AfterEntry(st: RrdState, env: Env, e: (string, Handler), topic: string, msg: Message,
                      now: int, warnings: seq<Fault>): (RrdState, seq<Fault>)
  {
    match MatchedText(Pattern(e.0), topic)
    case None => (st, warnings)
    case Some(node) =>
      match RunHandler(st, env, e.1, node, msg, now)
      case Ok(st1) => (st1, warnings)
      case Raise(st1, f) => (st1, warnings + [f])
  }

  function AfterEntries(st: RrdState, env: Env, es: seq<(string, Handler)>, topic: string, msg: Message,
                        now: int, warnings: seq<Fault>): (RrdState, seq<Fault>)
    decreases |es|
  {
    if es == [] then (st, warnings)
    else
      var (st1, w1) := AfterEntry(st, env, es[0], topic, msg, now, warnings);
      AfterEntries(st1, env, es[1..], topic, msg, now, w1)
  }

  /** `on_message`. */
  function AfterRrdMessage(st: RrdState, env: Env, topic: string, msg: Message, now: int)
    : (RrdState, seq<Fault>)
  {
    AfterEntries(st, env, Entries, topic, msg, now, [])
  }

  /** The two entries never both match: their prefixes differ in the
      first character. */
  lemma AtMostOneEntry(topic: string)
    ensures !(Entries[0].0 <= topic && Entries[1].0 <= topic)
  {
    if Entries[0].0 <= topic {
      assert topic[0] == 'z';
    }
  }

  /** With two entries that never both match, at most one handler runs,
      under the whole matched text as node name. */
  lemma RoutingTwo(st: RrdState, env: Env, e0: (string, Handler), e1: (string, Handler),
                   topic: string, msg: Message, now: int)
    requires !(e0.0 <= topic && e1.0 <= topic)
    ensures AfterEntries(st, env, [e0, e1], topic, msg, now, []) ==
      if e0.0 <= topic then Warned(RunHandler(st, env, e0.1, NodeName(e0.0, topic), msg, now))
      else if e1.0 <= topic then Warned(RunHandler(st, env, e1.1, NodeName(e1.0, topic), msg, now))
      else (st, [])
  {
    MatchedTextIsNode(e0.0, topic);
    MatchedTextIsNode(e1.0, topic);
    var es := [e0, e1];
    assert es[0] == e0 && es[1..] == [e1] && [e1][0] == e1 && [e1][1..] == [];
    var (st1, w1) := AfterEntry(st, env, e0, topic, msg, now, []);
    var (st2, w2) := AfterEntry(st1, env, e1, topic, msg, now, w1);
    assert AfterEntries(st, env, es, topic, msg, now, []) == AfterEntries(st1, env, [e1], topic, msg, now, w1);
    assert AfterEntries(st1, env, [e1], topic, msg, now, w1) == AfterEntries(st2, env, [], topic, msg, now, w2);
    if e0.0 <= topic {
      var r := RunHandler(st, env, e0.1, NodeName(e0.0, topic), msg, now);
      if r.Raise? {
        assert [] + [r.fault] == [r.fault];
      }
    } else if e1.0 <= topic {
      var r := RunHandler(st, env, e1.1, NodeName(e1.0, topic), msg, now);
      if r.Raise? {
        assert [] + [r.fault] == [r.fault];
      }
    }
  }

  /** A handler's outcome as `on_message` leaves it: the new state and the
      warning logged for what it raised. */
  function Warned(r: Result<RrdState>): (p: (RrdState, seq<Fault>))
    ensures p.0 == r.st
    ensures r.Ok? ==> p.1 == []
    ensures r.Raise? ==> p.1 == [r.fault]
  {
    match r
    case Ok(st) => (st, [])
    case Raise(st, f) => (st, [f])
  }

  /** A `temperature/<sensor>` topic carries a plain number, stored under
      the whole topic as source name, so in the file
      `<rrd_path>/temperature/<sensor>.rrd`. A payload `float()` rejects is
      logged as a warning and changes nothing. */
  lemma FloatTopicRouting(st: RrdState, env: Env, topic: string, msg: Message, now: int)
    requires Entries[1].0 <= topic && '\n' !in topic
    ensures msg.float.None? ==> AfterRrdMessage(st, env, topic, msg, now) == (st, [BadFloat])
    ensures msg.float.Some? ==>
      AfterRrdMessage(st, env, topic, msg, now) == (AfterUpdateRrd(st, env, now, topic, Number(msg.float.value)).st, [])
  {
    AtMostOneEntry(topic);
    RoutingTwo(st, env, Entries[0], Entries[1], topic, msg, now);
    NodeNameWholeTopic(Entries[1].0, topic);
    if msg.float.Some? {
      UpdateRrdCommands(st, env, now, topic, msg.float.value);
    }
  }

  /** A `zigbee2mqtt/<node>` topic is handled as JSON under the whole
      topic as node name; no other entry matches it. */
  lemma JsonTopicRouting(st: RrdState, env: Env, topic: string, msg: Message, now: int)
    requires Entries[0].0 <= topic && '\n' !in topic
    ensures AfterRrdMessage(st, env, topic, msg, now) == Warned(AfterRrdJson(st, env, topic, msg.json, now))
  {
    AtMostOneEntry(topic);
    RoutingTwo(st, env, Entries[0], Entries[1], topic, msg, now);
    NodeNameWholeTopic(Entries[0].0, topic);
  }

  /** A topic under neither prefix changes nothing and logs nothing. */
  lemma OtherTopicIgnored(st: RrdState, env: Env, topic: string, msg: Message, now: int)
    requires !(Entries[0].0 <= topic) && !(Entries[1].0 <= topic)
    ensures AfterRrdMessage(st, env, topic, msg, now) == (st, [])
  {
    RoutingTwo(st, env, Entries[0], Entries[1], topic, msg, now);
  }

  // ---------------------------------------------------------------------
  // The imperative ingester

  /** The module-level state of mqtt_to_rrd.py, with the outside world it
      acts on: the files that exist and the commands run. */
  class RrdIngester {
    const env: Env
    var lastSamples: map<string, int>
    var files: set<string>
    var commands: seq<Command>
    var errors: seq<RrdError>

    function State(): RrdState
      reads this
    {
      RrdState(lastSamples, files, commands, errors)
    }

    /** Start-up: `last_samples` is empty; `files` already exist. */
    constructor (env: Env, files: set<string>)
      ensures this.env == env && State() == RrdState(map[], files, [], [])
    {
      this.env := env;
      lastSamples, this.files, commands, errors := map[], files, [], [];
    }

    /** `subprocess.run` of one command, with the error logging around it. */
    method Run(cmd: Command)
      modifies this
      ensures State() == Exec(old(State()), env, cmd)
    {
      var res := env.run(|commands|);
      commands := commands + [cmd];
      match res {
        case NotFound => errors := errors + [ToolMissing];
        case Exit(code) =>
          if code != 0 {
            errors := errors + [if cmd.Create? then CreateFailed else UpdateFailed];
          } else if cmd.Create? {
            files := files + {cmd.file};
          }
      }
    }

    /** `create_rrd`. */
    method CreateRrd(file: string, prefill: Option<(string, string)>)
      modifies this
      ensures State() == Exec(old(State()), env, Create(file, prefill))
    {
      Run(Create(file, prefill));
    }

    /** `update_rrd`; `fault` is what it raises, if anything. */
    method UpdateRrd(ts: int, source: string, value: JsonValue) returns (fault: Option<Fault>)
      modifies this
      ensures AfterUpdateRrd(old(State()), env, ts, source, value) ==
              if fault.Some? then Raise(State(), fault.value) else Ok(State())
    {
      if value.NonNumber? {
        return Some(NotANumber);
      }
      if source in lastSamples && lastSamples[source] == ts {
        return None;
      }
      lastSamples := lastSamples[source := ts];
      var file := RrdFile(env.rrdPath, source);
      if file !in files {
        CreateRrd(file, None);
      }
      Run(Update(file, ts, value.v));
      return None;
    }

    /** `handle_json_topic`: the field blocks in table order, stopping at
        the first that raises. */
    method HandleJson(node: string, doc: Document, now: int) returns (fault: Option<Fault>)
      modifies this
      ensures AfterRrdJson(old(State()), env, node, doc, now) ==
              if fault.Some? then Raise(State(), fault.value) else Ok(State())
    {
      match doc
      case Malformed =>
        return Some(BadJson);
      case Scalar =>
        return Some(NotAMapping);
      case Listlike(members) =>
        var i := 0;
        while i < |RrdFields|
          invariant 0 <= i <= |RrdFields|
          invariant forall j :: 0 <= j < i ==> RrdFields[j].key !in members
        {
          if RrdFields[i].key in members {
            return Some(NotAMapping);
          }
          i := i + 1;
        }
        return None;
      case Object(fields) =>
        fault := None;
        ghost var s0 := State();
        var i := 0;
        while i < |RrdFields|
          invariant 0 <= i <= |RrdFields|
          invariant fault.None?
          invariant AfterRrdFields(s0, env, node, fields, RrdFields, now)
                 == AfterRrdFields(State(), env, node, fields, RrdFields[i..], now)
        {
          var rule := RrdFields[i];
          assert RrdFields[i..][0] == rule && RrdFields[i..][1..] == RrdFields[i + 1..];
          ghost var before := State();
          if rule.key in fields {
            fault := UpdateRrd(now, node + rule.suffix, fields[rule.key]);
            if fault.Some? {
              return;
            }
          }
          i := i + 1;
        }
        assert RrdFields[i..] == [];
    }

    /** `handle_float_topic`. */
    method HandleFloat(node: string, payload: Option<Value>, now: int) returns (fault: Option<Fault>)
      modifies this
      ensures AfterFloat(old(State()), env, node, payload, now) ==
              if fault.Some? then Raise(State(), fault.value) else Ok(State())
    {
      if payload.None? {
        return Some(BadFloat);
      }
      fault := UpdateRrd(now, node, Number(payload.value));
    }

    /** One entry of `on_message`. */
    method HandleEntry(e: (string, Handler), topic: string, msg: Message, now: int, warnings: seq<Fault>)
      returns (warnings': seq<Fault>)
      modifies this
      ensures (State(), warnings') == AfterEntry(old(State()), env, e, topic, msg, now, warnings)
    {
      warnings' := warnings;
      var m := MatchAt(Pattern(e.0), topic);
      if m.Some? {
        var node := topic[..m.value.len];
        var fault;
        if e.1 == JsonHandler {
          fault := HandleJson(node, msg.json, now);
        } else {
          fault := HandleFloat(node, msg.float, now);
        }
        if fault.Some? {
          warnings' := warnings + [fault.value];
        }
      }
    }

    /** The loop of `on_message` over a list of entries: every entry whose
        regex matches runs its handler; an exception becomes a warning and
        the loop goes on. */
    method HandleEntries(es: seq<(string, Handler)>, topic: string, msg: Message, now: int)
      returns (warnings: seq<Fault>)
      modifies this
      ensures (State(), warnings) == AfterEntries(old(State()), env, es, topic, msg, now, [])
    {
      warnings := [];
      ghost var s0 := State();
      for i := 0 to |es|
        invariant AfterEntries(s0, env, es, topic, msg, now, [])
               == AfterEntries(State(), env, es[i..], topic, msg, now, warnings)
      {
        assert es[i..][0] == es[i] && es[i..][1..] == es[i + 1..];
        warnings := HandleEntry(es[i], topic, msg, now, warnings);
      }
    }

    /** `on_message` over `topics`. */
    method OnMessage(topic: string, msg: Message, now: int) returns (warnings: seq<Fault>)
      modifies this
      ensures (State(), warnings) == AfterRrdMessage(old(State()), env, topic, msg, now)
    {
      warnings := HandleEntries(Entries, topic, msg, now);
    }
  }
}
