/** mqtt_sensors/plot_sql.py: read each requested series from the samples
    database around the plotted window and break the drawn line wherever
    two consecutive readings are more than an hour apart. */
module PlotSql {
  import opened Basics
  import opened SampleTable

  /** `MAX_FORWARD_FILL`: the longest gap, in seconds, a line may bridge. */
  const MaxForwardFill := 3600

  /** An element of the list handed to `ax.plot`: a time and a value, or
      None for the dummy point that interrupts the line. */
  datatype PlotPoint = PlotPoint(time: int, value: Option<Value>)

  function Real(s: Sample): PlotPoint
  {
    PlotPoint(s.time, Some(s.value))
  }

  /** The dummy `(t-1, None)` inserted before a reading at time `t`. */
  function Dummy(s: Sample): PlotPoint
  {
    PlotPoint(s.time - 1, None)
  }

  /** `list(cur)`: the query rows as plot points. */
  function Reals(s: seq<Sample>): (r: seq<PlotPoint>)
    ensures |r| == |s| && forall i :: 0 <= i < |s| ==> r[i] == Real(s[i])
  {
    seq(|s|, i requires 0 <= i < |s| => Real(s[i]))
  }

  /** A gap before `x`: it is more than `MaxForwardFill` after the
      previous reading. Exactly `MaxForwardFill` is not a gap. */
  predicate Gap(prev: Sample, x: Sample)
  {
    x.time > prev.time + MaxForwardFill
  }

  /** What the gap-break pass produces: every reading in order, with a
      dummy right before each reading that follows a gap. */
  function Broken(s: seq<Sample>): seq<PlotPoint>
    decreases |s|
  {
    if s == [] then []
    else
      var init := s[..|s| - 1];
      var x := s[|s| - 1];
      Broken(init) + (if init != [] && Gap(init[|init| - 1], x) then [Dummy(x)] else []) + [Real(x)]
  }

  /** The readings of a plotted list, dropping the dummies. */
  function Readings(p: seq<PlotPoint>): seq<Sample>
    decreases |p|
  {
    if p == [] then []
    else
      Readings(p[..|p| - 1])
      + (if p[|p| - 1].value.Some? then [Sample(p[|p| - 1].time, p[|p| - 1].value.value)] else [])
  }

  /** The number of gaps in `s`. */
  function GapCount(s: seq<Sample>): nat
    decreases |s|
  {
    if |s| <= 1 then 0
    else GapCount(s[..|s| - 1]) + if Gap(s[|s| - 2], s[|s| - 1]) then 1 else 0
  }

  lemma ReadingsAppend(p: seq<PlotPoint>, q: seq<PlotPoint>)
    ensures Readings(p + q) == Readings(p) + Readings(q)
    decreases |q|
  {
    if q != [] {
      assert (p + q)[..|p + q| - 1] == p + q[..|q| - 1];
      ReadingsAppend(p, q[..|q| - 1]);
    } else {
      assert p + q == p;
    }
  }

  /** Dropping the dummies gives back the query rows: the pass only adds. */
  lemma {:induction false} BrokenKeepsReadings(s: seq<Sample>)
    ensures Readings(Broken(s)) == s
    decreases |s|
  {
    if s != [] {
      var init := s[..|s| - 1];
      var x := s[|s| - 1];
      var d := if init != [] && Gap(init[|init| - 1], x) then [Dummy(x)] else [];
      BrokenKeepsReadings(init);
      ReadingsAppend(Broken(init) + d, [Real(x)]);
      ReadingsAppend(Broken(init), d);
      assert Readings(d) == [] by {
        if d != [] {
          assert d[..0] == [];
        }
      }
      assert [Real(x)][..0] == [];
      assert s == init + [x];
    }
  }

  /** Exactly one dummy per gap. */
  lemma {:induction false} BrokenLength(s: seq<Sample>)
    ensures |Broken(s)| == |s| + GapCount(s)
    decreases |s|
  {
    if s != [] {
      BrokenLength(s[..|s| - 1]);
      if |s| >= 2 {
        assert s[..|s| - 1][|s| - 2] == s[|s| - 2];
      }
    }
  }

  /** No line segment is drawn across a gap: two adjacent readings in the
      output are at most `MaxForwardFill` apart, and every dummy is
      followed by the reading it precedes, one second later. */
  lemma {:induction false} BrokenShortSegments(s: seq<Sample>)
    ensures var b := Broken(s);
      forall j :: 0 <= j < |b| - 1 ==>
        (b[j].value.Some? && b[j + 1].value.Some? ==> b[j + 1].time <= b[j].time + MaxForwardFill) &&
        (b[j].value.None? ==> b[j + 1].value.Some? && b[j + 1].time == b[j].time + 1)
    ensures var b := Broken(s); s != [] ==> b[|b| - 1] == Real(s[|s| - 1])
    decreases |s|
  {
    if s != [] {
      var init := s[..|s| - 1];
      var x := s[|s| - 1];
      BrokenShortSegments(init);
      var bi := Broken(init);
      var d := if init != [] && Gap(init[|init| - 1], x) then [Dummy(x)] else [];
      var b := bi + d + [Real(x)];
      assert Broken(s) == b;
      forall j | 0 <= j < |b| - 1
        ensures (b[j].value.Some? && b[j + 1].value.Some? ==> b[j + 1].time <= b[j].time + MaxForwardFill)
        ensures (b[j].value.None? ==> b[j + 1].value.Some? && b[j + 1].time == b[j].time + 1)
      {
        if j < |bi| - 1 {
          assert b[j] == bi[j] && b[j + 1] == bi[j + 1];
        } else if j == |bi| - 1 {
          assert b[j] == Real(init[|init| - 1]);
        }
      }
    }
  }

  /** A gap of exactly an hour is bridged; one minute more is broken. */
  lemma GapBoundary(v: Value, w: Value)
    ensures Broken([Sample(0, v), Sample(3600, w)]) == [Real(Sample(0, v)), Real(Sample(3600, w))]
    ensures Broken([Sample(0, v), Sample(3660, w)])
         == [Real(Sample(0, v)), PlotPoint(3659, None), Real(Sample(3660, w))]
  {
    var a := [Sample(0, v), Sample(3600, w)];
    assert a[..1] == [Sample(0, v)] && a[..1][..0] == [];
    var c := [Sample(0, v), Sample(3660, w)];
    assert c[..1] == [Sample(0, v)] && c[..1][..0] == [];
    assert Gap(c[0], c[1]);
    assert Broken(c[..1]) == [Real(Sample(0, v))];
    assert Broken(c) == [Real(Sample(0, v))] + [Dummy(c[1])] + [Real(c[1])];
  }

  lemma BrokenSnoc(s: seq<Sample>, k: nat)
    requires k < |s|
    ensures Broken(s[..k + 1]) == Broken(s[..k])
      + (if k > 0 && Gap(s[k - 1], s[k]) then [Dummy(s[k])] else []) + [Real(s[k])]
  {
    var p := s[..k + 1];
    assert p[..|p| - 1] == s[..k];
    if k > 0 {
      assert s[..k][k - 1] == s[k - 1];
    }
  }

  /** Where the gap-break loop stands: `k` readings are done and the
      list holds their output followed by the untouched rest; or, right
      after an insertion, the dummy for reading `k` sits before it and the
      reading is to be visited again. */
  ghost predicate LoopState(rows: seq<Sample>, k: nat, revisit: bool, data: seq<PlotPoint>, i: int,
                            lastTime: Option<int>)
  {
    && k <= |rows|
    && (!revisit ==>
          && data == Broken(rows[..k]) + Reals(rows[k..])
          && i == |Broken(rows[..k])|
          && lastTime == (if k == 0 then None else Some(rows[k - 1].time)))
    && (revisit ==>
          && 0 < k < |rows| && Gap(rows[k - 1], rows[k])
          && data == Broken(rows[..k]) + [Dummy(rows[k])] + Reals(rows[k..])
          && i == |Broken(rows[..k])| + 1
          && lastTime == Some(rows[k].time))
  }

  /** The reading under the cursor is reading `k`. */
  lemma LoopCursor(rows: seq<Sample>, k: nat, revisit: bool, data: seq<PlotPoint>, i: int, lastTime: Option<int>)
    requires LoopState(rows, k, revisit, data, i, lastTime) && 0 <= i < |data|
    ensures k < |rows| && data[i] == Real(rows[k])
    ensures revisit ==> lastTime == Some(rows[k].time)
  {
    if !revisit {
      assert |data| == |Broken(rows[..k])| + |rows| - k;
      assert data[i] == Reals(rows[k..])[0];
    } else {
      assert data[i] == Reals(rows[k..])[0];
    }
  }

  /** Inserting the dummy at the cursor. */
  lemma LoopInsert(rows: seq<Sample>, k: nat, data: seq<PlotPoint>, i: int, lastTime: Option<int>)
    requires LoopState(rows, k, false, data, i, lastTime) && 0 <= i < |data| && k < |rows|
    requires lastTime.Some? && rows[k].time > lastTime.value + MaxForwardFill
    ensures LoopState(rows, k, true, data[..i] + [PlotPoint(rows[k].time - 1, None)] + data[i..], i + 1,
                      Some(rows[k].time))
  {
    assert data[..i] == Broken(rows[..k]);
    assert data[i..] == Reals(rows[k..]);
  }

  /** Finishing reading `k` when no dummy was inserted before it. */
  lemma LoopAdvance(rows: seq<Sample>, k: nat, data: seq<PlotPoint>, i: int, lastTime: Option<int>)
    requires LoopState(rows, k, false, data, i, lastTime) && k < |rows|
    requires !(lastTime.Some? && rows[k].time > lastTime.value + MaxForwardFill)
    ensures LoopState(rows, k + 1, false, data, i + 1, Some(rows[k].time))
  {
    BrokenSnoc(rows, k);
    var b := Broken(rows[..k]);
    assert Broken(rows[..k + 1]) == b + [Real(rows[k])];
    ReadsSplit(rows, k);
    AppendAssoc(b, [Real(rows[k])], Reals(rows[k + 1..]));
  }

  /** Finishing reading `k` on its second visit, after its dummy. */
  lemma LoopRevisit(rows: seq<Sample>, k: nat, data: seq<PlotPoint>, i: int, lastTime: Option<int>)
    requires LoopState(rows, k, true, data, i, lastTime)
    ensures LoopState(rows, k + 1, false, data, i + 1, Some(rows[k].time))
  {
    BrokenSnoc(rows, k);
    var b := Broken(rows[..k]);
    assert Broken(rows[..k + 1]) == b + [Dummy(rows[k])] + [Real(rows[k])];
    ReadsSplit(rows, k);
    AppendAssoc(b + [Dummy(rows[k])], [Real(rows[k])], Reals(rows[k + 1..]));
  }

  /** When the cursor runs off the end every reading is done. */
  lemma LoopExit(rows: seq<Sample>, k: nat, revisit: bool, data: seq<PlotPoint>, i: int, lastTime: Option<int>)
    requires LoopState(rows, k, revisit, data, i, lastTime) && i >= |data|
    ensures data == Broken(rows)
  {
    assert !revisit;
    assert |Reals(rows[k..])| == 0;
    assert rows[..k] == rows;
  }

  lemma ReadsSplit(rows: seq<Sample>, k: nat)
    requires k < |rows|
    ensures Reals(rows[k..]) == [Real(rows[k])] + Reals(rows[k + 1..])
  {
    assert rows[k..] == [rows[k]] + rows[k + 1..];
  }

  /** The gap-break loop of `plot_series`: it walks the list with
      `enumerate` while inserting into it, so after an insertion the
      shifted reading is visited a second time; by then `last_time` is its
      own time and it is not broken again. */
  method BreakGaps(rows: seq<Sample>) returns (data: seq<PlotPoint>)
    ensures data == Broken(rows)
  {
    data := Reals(rows);
    var lastTime: Option<int> := None;
    var i := 0;
    ghost var k := 0;
    ghost var revisit := false;
    assert rows[..0] == [] && rows[0..] == rows;
    while i < |data|
      invariant LoopState(rows, k, revisit, data, i, lastTime)
      decreases 2 * (|rows| - k) + (if revisit then 0 else 1)
    {
      data, i, lastTime, k, revisit := GapStep(rows, data, i, lastTime, k, revisit);
    }
    LoopExit(rows, k, revisit, data, i, lastTime);
  }

  /** One pass of the loop body: insert a dummy before the reading under
      the cursor when it is more than an hour after `last_time`, then move
      on. */
  method GapStep(rows: seq<Sample>, data: seq<PlotPoint>, i: nat, lastTime: Option<int>,
                 ghost k: nat, ghost revisit: bool)
    returns (data': seq<PlotPoint>, i': nat, lastTime': Option<int>, ghost k': nat, ghost revisit': bool)
    requires LoopState(rows, k, revisit, data, i, lastTime) && i < |data|
    ensures LoopState(rows, k', revisit', data', i', lastTime')
    ensures k' <= |rows|
    ensures 2 * (|rows| - k') + (if revisit' then 0 else 1) < 2 * (|rows| - k) + (if revisit then 0 else 1)
  {
    LoopCursor(rows, k, revisit, data, i, lastTime);
    var t := data[i].time;
    data', k', revisit' := data, k, revisit;
    if lastTime.Some? && t > lastTime.value + MaxForwardFill {
      LoopInsert(rows, k, data, i, lastTime);
      data' := data[..i] + [PlotPoint(t - 1, None)] + data[i..];
      revisit' := true;
    } else {
      if revisit {
        LoopRevisit(rows, k, data, i, lastTime);
      } else {
        LoopAdvance(rows, k, data, i, lastTime);
      }
      revisit' := false;
      k' := k + 1;
    }
    lastTime' := Some(t);
    i' := i + 1;
  }


  // ---------------------------------------------------------------------
  // `plot_series` and `plot`

  /** One `ax.plot` call: the legend and the points of the line. */
  datatype Line = Line(legend: string, points: seq<PlotPoint>)

  /** The line `plot_series` draws for `name`: none for an unknown series,
      otherwise the rows from an hour before `start` to an hour after `end`,
      gap-broken. */
  function SeriesLine(st: Store, name: string, legend: string, start: int, end: int): seq<Line>
  {
    match LookupSeries(st, name)
    case None => []
    case Some(id) => [Line(legend, Broken(Query(st, id, start - MaxForwardFill, end + MaxForwardFill)))]
  }

  /** What `plot_series` logs: `No such series` for an unknown name. */
  function SeriesErrors(st: Store, name: string): seq<string>
  {
    if name in st.series then [] else [name]
  }

  /** The loop of `plot` over the (series, legend) pairs: the lines. */
  function PlotLines(st: Store, pairs: seq<(string, string)>, start: int, end: int): seq<Line>
    decreases |pairs|
  {
    if pairs == [] then []
    else SeriesLine(st, pairs[0].0, pairs[0].1, start, end) + PlotLines(st, pairs[1..], start, end)
  }

  /** The loop of `plot`: the errors. */
  function PlotErrors(st: Store, pairs: seq<(string, string)>): seq<string>
    decreases |pairs|
  {
    if pairs == [] then []
    else SeriesErrors(st, pairs[0].0) + PlotErrors(st, pairs[1..])
  }

  /** A known series is drawn as one line holding exactly the query rows
      (all readings of the series stored between an hour before `start`
      and an hour after `end`), in time order, each at a whole minute. */
  lemma KnownSeriesLine(st: Store, name: string, legend: string, start: int, end: int)
    requires name in st.series
    ensures var lines := SeriesLine(st, name, legend, start, end);
      var q := Query(st, st.series[name], start - MaxForwardFill, end + MaxForwardFill);
      && |lines| == 1 && lines[0].legend == legend
      && Readings(lines[0].points) == q
      && SortedByTime(q)
      && multiset(q) == multiset(Selected(st.samples, st.series[name], start - MaxForwardFill, end + MaxForwardFill))
      && (forall k :: 0 <= k < |q| ==> q[k].time % 60 == 0)
  {
    var q := Query(st, st.series[name], start - MaxForwardFill, end + MaxForwardFill);
    BrokenKeepsReadings(q);
    QueryResult(st, st.series[name], start - MaxForwardFill, end + MaxForwardFill);
  }

  /** An unknown series is logged and draws nothing. */
  lemma UnknownSeriesSkipped(st: Store, name: string, legend: string, start: int, end: int)
    requires name !in st.series
    ensures SeriesLine(st, name, legend, start, end) == [] && SeriesErrors(st, name) == [name]
  {
  }

  /** The pairs are drawn in order, each independently of the others: an
      unknown series in the middle does not stop the ones after it. */
  lemma {:induction false} PlotLinesConcat(st: Store, a: seq<(string, string)>, b: seq<(string, string)>,
                                           start: int, end: int)
    ensures PlotLines(st, a + b, start, end) == PlotLines(st, a, start, end) + PlotLines(st, b, start, end)
    ensures PlotErrors(st, a + b) == PlotErrors(st, a) + PlotErrors(st, b)
    decreases |a|
  {
    if a == [] {
      assert a + b == b;
    } else {
      assert (a + b)[0] == a[0] && (a + b)[1..] == a[1..] + b;
      PlotLinesConcat(st, a[1..], b, start, end);
      AppendAssoc(SeriesLine(st, a[0].0, a[0].1, start, end), PlotLines(st, a[1..], start, end),
                  PlotLines(st, b, start, end));
      AppendAssoc(SeriesErrors(st, a[0].0), PlotErrors(st, a[1..]), PlotErrors(st, b));
    }
  }

  lemma PlotSnoc(st: Store, pairs: seq<(string, string)>, i: nat, start: int, end: int)
    requires i < |pairs|
    ensures PlotLines(st, pairs[..i + 1], start, end)
         == PlotLines(st, pairs[..i], start, end) + SeriesLine(st, pairs[i].0, pairs[i].1, start, end)
    ensures PlotErrors(st, pairs[..i + 1]) == PlotErrors(st, pairs[..i]) + SeriesErrors(st, pairs[i].0)
  {
    var x := [pairs[i]];
    assert pairs[..i + 1] == pairs[..i] + x;
    assert x[0] == pairs[i] && x[1..] == [];
    PlotLinesConcat(st, pairs[..i], x, start, end);
  }

  /** The time arithmetic of `plot`. */
  datatype PlotWindow = PlotWindow(start: int, end: int, hourCount: int, dayCount: int)

  /** `end_time = int(time.time() // 60) * 60`, `start_time = end_time -
      args.time`, `hour_count = (end_time - start_time) // 3600`,
      `day_count = hour_count // 24` (floor divisions). */
  function PlotWindowAt(now: int, span: int): (w: PlotWindow)
    ensures w.start == MinuteWindow(now, span).start && w.end == MinuteWindow(now, span).end
    ensures w.hourCount * 3600 <= span < (w.hourCount + 1) * 3600
    ensures w.dayCount * 24 <= w.hourCount < (w.dayCount + 1) * 24
  {
    var m := MinuteWindow(now, span);
    var hours := (m.end - m.start) / 3600;
    PlotWindow(m.start, m.end, hours, hours / 24)
  }

  /** The figure `plot` draws into and the error log. */
  class Figure {
    var lines: seq<Line>
    var errors: seq<string>

    constructor ()
      ensures lines == [] && errors == []
    {
      lines, errors := [], [];
    }

    /** `plot_series`. */
    method PlotSeries(st: Store, name: string, legend: string, start: int, end: int)
      modifies this
      ensures lines == old(lines) + SeriesLine(st, name, legend, start, end)
      ensures errors == old(errors) + SeriesErrors(st, name)
    {
      var id := LookupSeries(st, name);
      if id.None? {
        errors := errors + [name];
        return;
      }
      var rows := Query(st, id.value, start - MaxForwardFill, end + MaxForwardFill);
      var data := BreakGaps(rows);
      lines := lines + [Line(legend, data)];
    }

    /** One iteration of the loop in `plot`. */
    method PlotPair(st: Store, pairs: seq<(string, string)>, i: nat, start: int, end: int,
                    ghost l0: seq<Line>, ghost e0: seq<string>)
      requires i < |pairs|
      requires lines == l0 + PlotLines(st, pairs[..i], start, end)
      requires errors == e0 + PlotErrors(st, pairs[..i])
      modifies this
      ensures lines == l0 + PlotLines(st, pairs[..i + 1], start, end)
      ensures errors == e0 + PlotErrors(st, pairs[..i + 1])
    {
      PlotSeries(st, pairs[i].0, pairs[i].1, start, end);
      PlotSnoc(st, pairs, i, start, end);
      AppendAssoc(l0, PlotLines(st, pairs[..i], start, end), SeriesLine(st, pairs[i].0, pairs[i].1, start, end));
      AppendAssoc(e0, PlotErrors(st, pairs[..i]), SeriesErrors(st, pairs[i].0));
    }

    /** `plot`: pair the series with the labels (`zip_longest` with fill
        value "sensor"), compute the window, draw each pair in order. */
    method Plot(st: Store, series: seq<string>, labels: seq<string>, now: int, span: int)
      returns (w: PlotWindow)
      modifies this
      ensures w == PlotWindowAt(now, span)
      ensures lines == old(lines) + PlotLines(st, ZipLongest(series, labels, "sensor"), w.start, w.end)
      ensures errors == old(errors) + PlotErrors(st, ZipLongest(series, labels, "sensor"))
    {
      var pairs := ZipLongest(series, labels, "sensor");
      var end := now / 60 * 60;
      var start := end - span;
      var hourCount := (end - start) / 3600;
      w := PlotWindow(start, end, hourCount, hourCount / 24);
      ghost var l0, e0 := lines, errors;
      for i := 0 to |pairs|
        invariant lines == l0 + PlotLines(st, pairs[..i], start, end)
        invariant errors == e0 + PlotErrors(st, pairs[..i])
      {
        PlotPair(st, pairs, i, start, end, l0, e0);
      }
      assert pairs[..|pairs|] == pairs;
    }
  }
}
