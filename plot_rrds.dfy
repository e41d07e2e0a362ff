/** plot_rrds.py: one `rrdtool graph` command per timespan, drawing every
    (RRD file, label) pair as an average line over a min/max band. */
module PlotRrds {
  import opened Basics
  import opened Text

  /** The line colours, one per series; a tenth series has none. */
  const Colors: seq<nat> := [0x4488ee, 0xee4488, 0x88ee44, 0xbb6622,
                             0x6622bb, 0x22bb66, 0x2222ee, 0x22ee22, 0xee2222]
  const Width: nat := 768
  const Height: nat := 256

  /** `COMMON_OPTS.split()`. */
  const CommonOpts: seq<string> := ["-E", "--lazy", "--full-size-mode", "--grid-dash", "1:0"]

  /** `COLOR_OPTS.split()`: the background colour 0x332222 on the shade,
      back and canvas elements, the foreground 0xffffff on font, axis and
      arrow, fixed greys for the grids. */
  const ColorOpts: seq<string> := [
    "--color", "SHADEA#332222", "--color", "SHADEB#332222",
    "--color", "BACK#332222", "--color", "CANVAS#332222",
    "--color", "FONT#ffffff", "--color", "AXIS#ffffff", "--color", "ARROW#ffffff",
    "--color", "GRID#444444", "--color", "MGRID#777777"]

  // ---------------------------------------------------------------------
  // Legends

  /** `label.replace(":", r"\:")`: rrdtool reads an unescaped colon as a
      field separator. */
  function Escape(legend: string): string
  {
    ReplaceChar(legend, ':', "\\:")
  }

  /** How rrdtool reads an escaped legend back: `\:` is a colon, every other
      character stands for itself. */
  function Unescape(e: string): string
  {
    if |e| >= 2 && e[0] == '\\' && e[1] == ':' then [':'] + Unescape(e[2..])
    else if e == [] then []
    else [e[0]] + Unescape(e[1..])
  }

  /** Reading the escaped legend gives the label back, whatever it holds. */
  lemma {:induction false} EscapeRoundTrip(legend: string)
    ensures Unescape(Escape(legend)) == legend
    decreases |legend|
  {
    if legend != [] {
      var rest := Escape(legend[1..]);
      EscapeRoundTrip(legend[1..]);
      assert rest == [] || rest[0] != ':' by {
        if legend[1..] != [] && legend[1..][0] == ':' {
          assert rest[0] == '\\';
        }
      }
      if legend[0] == ':' {
        assert Escape(legend) == "\\:" + rest;
        assert Escape(legend)[2..] == rest;
      } else {
        assert Escape(legend) == [legend[0]] + rest;
        assert Escape(legend)[1..] == rest;
      }
    }
  }

  /** An escaped legend does not start with a colon. */
  lemma EscapeStart(legend: string)
    ensures Escape(legend) == [] || Escape(legend)[0] != ':'
  {
    if legend != [] {
      var head: string := if legend[0] == ':' then "\\:" else [legend[0]];
      assert Escape(legend) == head + Escape(legend[1..]);
      assert Escape(legend)[0] == head[0];
    }
  }

  /** No colon of the escaped legend is a field separator: each one follows
      a backslash. */
  lemma {:induction false} EscapedColons(legend: string)
    ensures forall k :: 0 <= k < |Escape(legend)| && Escape(legend)[k] == ':' ==>
      k > 0 && Escape(legend)[k - 1] == '\\'
    decreases |legend|
  {
    if legend != [] {
      var rest := Escape(legend[1..]);
      EscapedColons(legend[1..]);
      EscapeStart(legend[1..]);
      var head: string := if legend[0] == ':' then "\\:" else [legend[0]];
      var e := Escape(legend);
      assert e == head + rest;
      forall k | 0 <= k < |e| && e[k] == ':' ensures k > 0 && e[k - 1] == '\\' {
        if k > |head| {
          assert rest[k - |head|] == e[k];
          assert e[k - 1] == rest[k - |head| - 1];
        }
      }
    }
  }

  // ---------------------------------------------------------------------
  // The graph definitions

  /** A piece of a `str.format` template: literal text or one of the
      fields `{i}`, `{rrd}`, `{color:06x}` and `{label}`. */
  datatype Part = Chars(text: string) | IndexField | RrdField | ColourField | LegendField

  function FormatPart(p: Part, i: nat, rrd: string, c: nat, legend: string): string
  {
    match p
    case Chars(text) => text
    case IndexField => Decimal(i)
    case RrdField => rrd
    case ColourField => HexPadded(c, 6)
    case LegendField => legend
  }

  /** `template.format(i=i, rrd=rrd, color=c, label=legend)`. */
  function Format(t: seq<Part>, i: nat, rrd: string, c: nat, legend: string): string
  {
    if t == [] then [] else FormatPart(t[0], i, rrd, c, legend) + Format(t[1..], i, rrd, c, legend)
  }

  /** The seven templates of a series: the average, minimum and maximum data
      sources, the max-min difference, a faint area up to the minimum, the
      minimum line with the legend and the band stacked on top of it. */
  const Templates: seq<seq<Part>> := [
    [Chars("DEF:sensor"), IndexField, Chars("="), RrdField, Chars(":value:AVERAGE")],
    [Chars("DEF:sensor"), IndexField, Chars("_min="), RrdField, Chars(":value:MIN")],
    [Chars("DEF:sensor"), IndexField, Chars("_max="), RrdField, Chars(":value:MAX")],
    [Chars("CDEF:sensor"), IndexField, Chars("_delta=sensor"), IndexField, Chars("_max,sensor"),
     IndexField, Chars("_min,-")],
    [Chars("AREA:sensor"), IndexField, Chars("_min#"), ColourField, Chars("1e")],
    [Chars("LINE2:sensor"), IndexField, Chars("_min#"), ColourField, Chars(":"), LegendField],
    [Chars("AREA:sensor"), IndexField, Chars("_delta#"), ColourField, Chars("::STACK")]]

  /** `list(map(lambda s: s.format(...), d))`. */
  function FormatAll(ts: seq<seq<Part>>, i: nat, rrd: string, c: nat, legend: string): (d: seq<string>)
    ensures |d| == |ts|
  {
    if ts == [] then []
    else [Format(ts[0], i, rrd, c, legend)] + FormatAll(ts[1..], i, rrd, c, legend)
  }

  lemma {:induction false} FormatAt(ts: seq<seq<Part>>, k: nat, i: nat, rrd: string, c: nat, legend: string)
    requires k < |ts|
    ensures FormatAll(ts, i, rrd, c, legend)[k] == Format(ts[k], i, rrd, c, legend)
    decreases k
  {
    if k > 0 {
      FormatAt(ts[1..], k - 1, i, rrd, c, legend);
    }
  }

  /** The seven definitions of series `i` read from `rrd`, drawn in colour
      `c` with the (escaped) legend. */
  function SeriesDefs(i: nat, rrd: string, legend: string, c: nat): (d: seq<string>)
    ensures |d| == 7
  {
    FormatAll(Templates, i, rrd, c, legend)
  }

  /** Different series get different rrdtool variable names. */
  lemma SensorNamesDistinct(i: nat, j: nat)
    requires i != j
    ensures "sensor" + Decimal(i) != "sensor" + Decimal(j)
  {
    if "sensor" + Decimal(i) == "sensor" + Decimal(j) {
      assert Decimal(i) == ("sensor" + Decimal(i))[6..];
      assert Decimal(j) == ("sensor" + Decimal(j))[6..];
      ParseDecimal(i);
      ParseDecimal(j);
      assert false;
    }
  }

  /** The minimum line of series `i` is drawn in `Colors[i]`, written as six
      hex digits that read back as the colour, and carries the label. */
  lemma SeriesColour(i: nat, rrd: string, legend: string)
    requires i < |Colors|
    ensures exists hex ::
      |hex| == 6 && DigitsValue(hex, 16) == Colors[i] &&
      SeriesDefs(i, rrd, Escape(legend), Colors[i])[5]
        == "LINE2:sensor" + Decimal(i) + "_min#" + hex + ":" + Escape(legend)
  {
    var c := Colors[i];
    var e := Escape(legend);
    HexColour(c);
    var hex := HexPadded(c, 6);
    var t := Templates[5];
    FormatAt(Templates, 5, i, rrd, c, e);
    assert Format(t[5..], i, rrd, c, e) == e;
    assert Format(t[4..], i, rrd, c, e) == ":" + e by { assert t[4..][1..] == t[5..]; }
    assert Format(t[3..], i, rrd, c, e) == hex + (":" + e) by { assert t[3..][1..] == t[4..]; }
    assert Format(t[2..], i, rrd, c, e) == "_min#" + (hex + (":" + e)) by { assert t[2..][1..] == t[3..]; }
    assert Format(t[1..], i, rrd, c, e) == Decimal(i) + ("_min#" + (hex + (":" + e))) by {
      assert t[1..][1..] == t[2..];
    }
    assert Format(t, i, rrd, c, e) == "LINE2:sensor" + (Decimal(i) + ("_min#" + (hex + (":" + e))));
    var l, d := "LINE2:sensor", Decimal(i);
    AppendAssoc(l, d, "_min#" + (hex + (":" + e)));
    AppendAssoc(l + d, "_min#", hex + (":" + e));
    AppendAssoc(l + d + "_min#", hex, ":" + e);
    AppendAssoc(l + d + "_min#" + hex, ":", e);
  }

  /** The definitions of pair `i`. */
  function PairDefs(pairs: seq<(string, string)>, i: nat): (d: seq<string>)
    requires i < |pairs| && i < |Colors|
    ensures |d| == 7
  {
    SeriesDefs(i, pairs[i].0, Escape(pairs[i].1), Colors[i])
  }

  /** The definitions of the first `n` pairs, series `i` numbered from 0 in
      the order the pairs come. */
  function DefsUpTo(pairs: seq<(string, string)>, n: nat): seq<string>
    requires n <= |pairs| && n <= |Colors|
    decreases n
  {
    if n == 0 then [] else DefsUpTo(pairs, n - 1) + PairDefs(pairs, n - 1)
  }

  /** Appending a block of seven keeps the earlier blocks in place. */
  lemma BlockKept<T>(d0: seq<T>, b: seq<T>, i: nat)
    requires 7 * i + 7 <= |d0|
    ensures (d0 + b)[7 * i .. 7 * i + 7] == d0[7 * i .. 7 * i + 7]
  {
  }

  /** Seven definitions per pair, the `i`-th block for the `i`-th pair. */
  lemma {:induction false} DefsLayout(pairs: seq<(string, string)>, n: nat)
    requires n <= |pairs| && n <= |Colors|
    ensures |DefsUpTo(pairs, n)| == 7 * n
    ensures forall i :: 0 <= i < n ==> DefsUpTo(pairs, n)[7 * i .. 7 * i + 7] == PairDefs(pairs, i)
    decreases n
  {
    if n > 0 {
      DefsLayout(pairs, n - 1);
      var d0 := DefsUpTo(pairs, n - 1);
      var b := PairDefs(pairs, n - 1);
      forall i | 0 <= i < n ensures (d0 + b)[7 * i .. 7 * i + 7] == PairDefs(pairs, i) {
        if i < n - 1 {
          BlockKept(d0, b, i);
        } else {
          assert (d0 + b)[|d0|..] == b;
        }
      }
    }
  }

  // ---------------------------------------------------------------------
  // The command

  /** The arguments of `rrdtool graph` before the definitions, writing
      `<outdir>/plot-<timespan>.png`. */
  function FixedArgs(outdir: string, timespan: string): (a: seq<string>)
    ensures |a| == 34
  {
    ["rrdtool", "graph", outdir + "/plot-" + timespan + ".png"] + CommonOpts + ColorOpts
    + ["--end", "now", "--start", "now-" + timespan, "--width", "768", "--height", "256"]
  }

  /** The whole command for `timespan`. */
  function GraphArgs(outdir: string, timespan: string, defs: seq<string>): seq<string>
  {
    FixedArgs(outdir, timespan) + defs
  }

  /** `str(SIZE[0])` and `str(SIZE[1])`. */
  lemma SizeText()
    ensures Decimal(Width) == "768" && Decimal(Height) == "256"
  {
  }

  /** The command has 34 fixed arguments followed by the definitions; the
      graph is written to `<outdir>/plot-<timespan>.png`, the window ends now
      and starts `timespan` before, and the size is 768 by 256. */
  lemma GraphArgsLayout(outdir: string, timespan: string, defs: seq<string>)
    ensures var a := GraphArgs(outdir, timespan, defs);
      && |a| == 34 + |defs| && a[34..] == defs
      && a[..2] == ["rrdtool", "graph"] && a[2] == outdir + "/plot-" + timespan + ".png"
      && a[26..30] == ["--end", "now", "--start", "now-" + timespan]
      && a[30] == "--width" && a[31] == Decimal(Width)
      && a[32] == "--height" && a[33] == Decimal(Height)
  {
    var f := FixedArgs(outdir, timespan);
    var head := ["rrdtool", "graph", outdir + "/plot-" + timespan + ".png"] + CommonOpts + ColorOpts;
    var tail := ["--end", "now", "--start", "now-" + timespan, "--width", "768", "--height", "256"];
    assert f == head + tail && |head| == 26;
    assert f[..2] == head[..2];
    assert f[26..] == tail;
    SizeText();
    var a := GraphArgs(outdir, timespan, defs);
    assert a[..34] == f;
  }

  /** What `plot` logs at error level. */
  datatype PlotError = PlotFailed | ToolMissing

  /** The commands run so far and the errors logged. */
  datatype PlotLog = PlotLog(commands: seq<seq<string>>, errors: seq<PlotError>)

  /** Running a command (`run(k)` is how the `k`-th run ends): a non-zero
      status or a missing `rrdtool` is logged, never raised. */
  function Exec(log: PlotLog, run: nat -> RunResult, cmd: seq<string>): (r: PlotLog)
    ensures r.commands == log.commands + [cmd]
    ensures r.errors == log.errors + match run(|log.commands|)
      case NotFound => [ToolMissing]
      case Exit(code) => if code == 0 then [] else [PlotFailed]
  {
    var res := run(|log.commands|);
    PlotLog(log.commands + [cmd],
            log.errors + match res
              case NotFound => [ToolMissing]
              case Exit(code) => if code == 0 then [] else [PlotFailed])
  }

  /** A run only adds to the log: the earlier commands and errors stay as
      they were, the command is recorded whatever happens, and exactly one
      error is added exactly when the run does not exit with status 0. */
  lemma ExecLogs(log: PlotLog, run: nat -> RunResult, cmd: seq<string>)
    ensures var r := Exec(log, run, cmd);
      && |r.commands| == |log.commands| + 1
      && r.commands[..|log.commands|] == log.commands && r.commands[|log.commands|] == cmd
      && r.errors[..|log.errors|] == log.errors
      && (|r.errors| == |log.errors| + 1 <==> run(|log.commands|) != Exit(0))
      && (|r.errors| == |log.errors| <==> run(|log.commands|) == Exit(0))
  {
  }

  /** How a call ends: normally, or with an exception that ends the program. */
  datatype Outcome<S> = Done(st: S) | Raised(st: S)

  /** The state `plot` sees: the position of the shared `zip_longest`
      iterator and the log. */
  datatype PlotState = PlotState(pos: nat, log: PlotLog)

  /** `plot(rrds_and_labels, outdir, timespan)`: `enumerate` numbers the
      pairs the iterator still holds from 0; the tenth one raises IndexError
      at `COLORS[9]`, after the iterator gave it up and before any command
      runs. Otherwise the iterator is used up and the command run. */
  function AfterPlot(pairs: seq<(string, string)>, run: nat -> RunResult, st: PlotState,
                     outdir: string, timespan: string): (r: Outcome<PlotState>)
    requires st.pos <= |pairs|
    ensures r.st.pos <= |pairs|
  {
    var rest := pairs[st.pos..];
    if |rest| > |Colors| then Raised(st.(pos := st.pos + |Colors| + 1))
    else Done(PlotState(|pairs|, Exec(st.log, run, GraphArgs(outdir, timespan, DefsUpTo(rest, |rest|)))))
  }

  /** The two ways `plot` ends, spelled out. */
  lemma AfterPlotCases(pairs: seq<(string, string)>, run: nat -> RunResult, st: PlotState,
                        outdir: string, timespan: string)
    requires st.pos <= |pairs|
    ensures |pairs| - st.pos > |Colors| ==>
      AfterPlot(pairs, run, st, outdir, timespan) == Raised(PlotState(st.pos + |Colors| + 1, st.log))
    ensures var rest := pairs[st.pos..];
      |rest| <= |Colors| ==>
      AfterPlot(pairs, run, st, outdir, timespan)
        == Done(PlotState(|pairs|, Exec(st.log, run, GraphArgs(outdir, timespan, DefsUpTo(rest, |rest|)))))
  {
  }

  /** The loop of the main block over the timespans; an exception ends it. */
  function AfterPlots(pairs: seq<(string, string)>, run: nat -> RunResult, st: PlotState,
                      outdir: string, timespans: seq<string>): (r: Outcome<PlotState>)
    requires st.pos <= |pairs|
    ensures r.st.pos <= |pairs|
    decreases |timespans|
  {
    if timespans == [] then Done(st)
    else match AfterPlot(pairs, run, st, outdir, timespans[0])
      case Raised(st1) => Raised(st1)
      case Done(st1) => AfterPlots(pairs, run, st1, outdir, timespans[1..])
  }

  /** `plot` raises exactly when more than nine pairs are left, and then
      runs nothing and logs nothing; otherwise it runs one command holding
      the definitions of every pair left. */
  lemma PlotRaisesIffTooMany(pairs: seq<(string, string)>, run: nat -> RunResult, st: PlotState,
                             outdir: string, timespan: string)
    requires st.pos <= |pairs|
    ensures AfterPlot(pairs, run, st, outdir, timespan).Raised? <==> |pairs| - st.pos > |Colors|
    ensures AfterPlot(pairs, run, st, outdir, timespan).Raised? ==>
      AfterPlot(pairs, run, st, outdir, timespan).st.log == st.log
    ensures AfterPlot(pairs, run, st, outdir, timespan).Done? ==>
      var log := AfterPlot(pairs, run, st, outdir, timespan).st.log;
      |log.commands| == |st.log.commands| + 1 &&
      |log.commands[|st.log.commands|]| == 34 + 7 * (|pairs| - st.pos)
  {
    var rest := pairs[st.pos..];
    if |rest| <= |Colors| {
      DefsLayout(rest, |rest|);
      GraphArgsLayout(outdir, timespan, DefsUpTo(rest, |rest|));
    }
  }

  /** Once the iterator is used up, each further `plot` runs a command with
      no definitions. */
  lemma {:induction false} ExhaustedPlots(pairs: seq<(string, string)>, run: nat -> RunResult, st: PlotState,
                                          outdir: string, timespans: seq<string>)
    requires st.pos == |pairs|
    ensures AfterPlots(pairs, run, st, outdir, timespans).Done?
    ensures var log := AfterPlots(pairs, run, st, outdir, timespans).st.log;
      && |log.commands| == |st.log.commands| + |timespans|
      && log.commands[..|st.log.commands|] == st.log.commands
      && forall k :: 0 <= k < |timespans| ==>
           log.commands[|st.log.commands| + k] == GraphArgs(outdir, timespans[k], [])
    decreases |timespans|
  {
    if timespans != [] {
      var st1 := AfterPlot(pairs, run, st, outdir, timespans[0]).st;
      assert pairs[st.pos..] == [];
      ExhaustedPlots(pairs, run, st1, outdir, timespans[1..]);
      var log := AfterPlots(pairs, run, st, outdir, timespans).st.log;
      var n := |st.log.commands|;
      assert st1.log.commands == st.log.commands + [GraphArgs(outdir, timespans[0], [])];
      assert log.commands[..n + 1] == st1.log.commands by {
        assert log.commands[..n + 1] == log.commands[..|st1.log.commands|];
      }
      forall k | 0 <= k < |timespans| ensures log.commands[n + k] == GraphArgs(outdir, timespans[k], []) {
        if k == 0 {
          assert log.commands[n] == log.commands[..n + 1][n];
        } else {
          assert timespans[k] == timespans[1..][k - 1];
          assert log.commands[n + k] == log.commands[|st1.log.commands| + (k - 1)];
        }
      }
      assert log.commands[..n] == log.commands[..n + 1][..n];
    }
  }

  /** As written, only the first timespan is drawn with the series: the
      single `zip_longest` iterator is used up by the first `plot`, so every
      later graph has no definitions at all. */
  lemma OnlyFirstPlotDraws(pairs: seq<(string, string)>, run: nat -> RunResult,
                           outdir: string, timespans: seq<string>)
    requires |pairs| <= |Colors| && timespans != []
    ensures AfterPlots(pairs, run, PlotState(0, PlotLog([], [])), outdir, timespans).Done?
    ensures var log := AfterPlots(pairs, run, PlotState(0, PlotLog([], [])), outdir, timespans).st.log;
      && |log.commands| == |timespans|
      && log.commands[0] == GraphArgs(outdir, timespans[0], DefsUpTo(pairs, |pairs|))
      && forall k :: 1 <= k < |timespans| ==> log.commands[k] == GraphArgs(outdir, timespans[k], [])
  {
    var st0 := PlotState(0, PlotLog([], []));
    assert pairs[0..] == pairs;
    var st1 := AfterPlot(pairs, run, st0, outdir, timespans[0]).st;
    ExhaustedPlots(pairs, run, st1, outdir, timespans[1..]);
    var log := AfterPlots(pairs, run, st0, outdir, timespans).st.log;
    assert log.commands[0] == log.commands[..1][0];
    forall k | 1 <= k < |timespans| ensures log.commands[k] == GraphArgs(outdir, timespans[k], []) {
      assert timespans[k] == timespans[1..][k - 1];
      assert log.commands[k] == log.commands[|st1.log.commands| + (k - 1)];
    }
  }

  /** A concrete case: one series and the default timespans; the daily
      graph has its seven definitions, the weekly one only the 34 fixed
      arguments and nothing to draw. */
  lemma WeeklyGraphEmpty(rrd: string, legend: string, run: nat -> RunResult)
    ensures var log := AfterPlots([(rrd, legend)], run, PlotState(0, PlotLog([], [])), ".",
                                  Timespans(None)).st.log;
      |log.commands| == 4 && |log.commands[0]| == 41 && |log.commands[1]| == 34
  {
    var pairs := [(rrd, legend)];
    OnlyFirstPlotDraws(pairs, run, ".", Timespans(None));
    DefsLayout(pairs, 1);
    GraphArgsLayout(".", "1d", DefsUpTo(pairs, 1));
    GraphArgsLayout(".", "1w", []);
  }

  /** The evidently intended main loop: every timespan draws all pairs (the
      pairs kept as a list rather than a one-shot iterator). */
  function AfterPlotsListed(pairs: seq<(string, string)>, run: nat -> RunResult, log: PlotLog,
                            outdir: string, timespans: seq<string>): Outcome<PlotLog>
    decreases |timespans|
  {
    if timespans == [] then Done(log)
    else if |pairs| > |Colors| then Raised(log)
    else AfterPlotsListed(pairs, run, Exec(log, run, GraphArgs(outdir, timespans[0], DefsUpTo(pairs, |pairs|))),
                          outdir, timespans[1..])
  }

  /** With the pairs as a list, every graph holds the definitions of every
      pair. */
  lemma {:induction false} EveryPlotDraws(pairs: seq<(string, string)>, run: nat -> RunResult, log: PlotLog,
                                          outdir: string, timespans: seq<string>)
    requires |pairs| <= |Colors|
    ensures AfterPlotsListed(pairs, run, log, outdir, timespans).Done?
    ensures var r := AfterPlotsListed(pairs, run, log, outdir, timespans).st;
      && |r.commands| == |log.commands| + |timespans|
      && r.commands[..|log.commands|] == log.commands
      && forall k :: 0 <= k < |timespans| ==>
           r.commands[|log.commands| + k] == GraphArgs(outdir, timespans[k], DefsUpTo(pairs, |pairs|))
    decreases |timespans|
  {
    if timespans != [] {
      var defs := DefsUpTo(pairs, |pairs|);
      var log1 := Exec(log, run, GraphArgs(outdir, timespans[0], defs));
      EveryPlotDraws(pairs, run, log1, outdir, timespans[1..]);
      var r := AfterPlotsListed(pairs, run, log, outdir, timespans).st;
      var n := |log.commands|;
      assert r.commands[..n + 1] == log1.commands by {
        assert r.commands[..n + 1] == r.commands[..|log1.commands|];
      }
      forall k | 0 <= k < |timespans| ensures r.commands[n + k] == GraphArgs(outdir, timespans[k], defs) {
        if k == 0 {
          assert r.commands[n] == r.commands[..n + 1][n];
        } else {
          assert timespans[k] == timespans[1..][k - 1];
          assert r.commands[n + k] == r.commands[|log1.commands| + (k - 1)];
        }
      }
      assert r.commands[..n] == r.commands[..n + 1][..n];
    }
  }

  /** `timespans`: the `-t` options when given, otherwise day, week, month
      and year. */
  function Timespans(t: Option<seq<string>>): (r: seq<string>)
    ensures t.Some? ==> r == t.value
    ensures t.None? ==> r == ["1d", "1w", "1m", "1y"]
  {
    if t.Some? then t.value else ["1d", "1w", "1m", "1y"]
  }

  /** The main block after argument parsing: the RRD files paired with the
      labels by one `zip_longest` iterator, and the commands and errors. */
  class Plotter {
    const pairs: seq<(string, string)>
    const run: nat -> RunResult
    var pos: nat
    var commands: seq<seq<string>>
    var errors: seq<PlotError>

    function State(): PlotState
      reads this
    {
      PlotState(pos, PlotLog(commands, errors))
    }

    predicate Valid()
      reads this
    {
      pos <= |pairs|
    }

    /** `args.l` defaults to no labels; missing labels are "sensor". */
    constructor (rrds: seq<string>, labels: Option<seq<string>>, run: nat -> RunResult)
      ensures Valid()
      ensures pairs == ZipLongest(rrds, if labels.Some? then labels.value else [], "sensor")
      ensures this.run == run && State() == PlotState(0, PlotLog([], []))
    {
      pairs := ZipLongest(rrds, if labels.Some? then labels.value else [], "sensor");
      this.run := run;
      pos, commands, errors := 0, [], [];
    }

    /** `subprocess.run` of one command and the logging of its failure. */
    method Run(cmd: seq<string>)
      modifies this
      ensures pos == old(pos)
      ensures PlotLog(commands, errors) == Exec(old(PlotLog(commands, errors)), run, cmd)
    {
      var res := run(|commands|);
      commands := commands + [cmd];
      match res {
        case NotFound => errors := errors + [ToolMissing];
        case Exit(code) =>
          if code != 0 {
            errors := errors + [PlotFailed];
          }
      }
    }

    /** `plot(rrds_and_labels, outdir, timespan)`. */
    method Plot(outdir: string, timespan: string) returns (raised: bool)
      requires Valid()
      modifies this
      ensures Valid()
      ensures State() == AfterPlot(pairs, run, old(State()), outdir, timespan).st
      ensures raised == AfterPlot(pairs, run, old(State()), outdir, timespan).Raised?
    {
      ghost var st0 := State();
      var rest := pairs[pos..];  // what the iterator still holds
      var defs: seq<string> := [];
      var i := 0;
      while pos < |pairs|
        invariant st0.pos <= pos <= |pairs| && i == pos - st0.pos && i <= |Colors|
        invariant rest == pairs[st0.pos..] && defs == DefsUpTo(rest, i)
        invariant PlotLog(commands, errors) == st0.log
        decreases |pairs| - pos
      {
        pos := pos + 1;
        if i >= |Colors| {
          AfterPlotCases(pairs, run, st0, outdir, timespan);
          return true;
        }
        defs := defs + PairDefs(rest, i);
        i := i + 1;
      }
      AfterPlotCases(pairs, run, st0, outdir, timespan);
      Run(GraphArgs(outdir, timespan, defs));
      raised := false;
    }

    /** The loop over the timespans; an exception from `plot` ends the
        program. */
    method PlotAll(outdir: string, t: Option<seq<string>>) returns (raised: bool)
      requires Valid()
      modifies this
      ensures Valid()
      ensures State() == AfterPlots(pairs, run, old(State()), outdir, Timespans(t)).st
      ensures raised == AfterPlots(pairs, run, old(State()), outdir, Timespans(t)).Raised?
    {
      var timespans := Timespans(t);
      ghost var r := AfterPlots(pairs, run, State(), outdir, timespans);
      var k := 0;
      while k < |timespans|
        invariant Valid() && k <= |timespans|
        invariant r == AfterPlots(pairs, run, State(), outdir, timespans[k..])
        decreases |timespans| - k
      {
        assert timespans[k..][0] == timespans[k] && timespans[k..][1..] == timespans[k + 1..];
        raised := Plot(outdir, timespans[k]);
        if raised {
          return;
        }
        k := k + 1;
      }
      raised := false;
    }
  }
}
