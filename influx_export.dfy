/** sql_to_influxdb.py (the copy under mqtt_sensors/ has the same text):
    copy the recent samples of the named series into InfluxDB, one point
    per stored row. */
module InfluxExport {
  import opened Basics
  import opened SampleTable

  /** A `Point('sample').field(name, value).tag('series', name)
      .time(timestamp, WritePrecision.S)`. */
  datatype InfluxPoint = InfluxPoint(measurement: string, field: string, value: Value,
                                     seriesTag: string, seconds: int)

  /** One `write_api.write(bucket, org, point)`. */
  datatype Write = Write(bucket: string, org: string, point: InfluxPoint)

  /** What the tool logs. */
  datatype LogLine = Exporting(name: string) | NoSuchSeries(name: string) | Wrote(count: nat)

  function PointOf(name: string, s: Sample): InfluxPoint
  {
    InfluxPoint("sample", name, s.value, name, s.time)
  }

  /** The (time, value) pairs the writes carry, in write order. */
  function WrittenSamples(w: seq<Write>): (s: seq<Sample>)
    ensures |s| == |w|
  {
    seq(|w|, k requires 0 <= k < |w| => Sample(w[k].point.seconds, w[k].point.value))
  }

  /** The writes for the rows `data`, in row order. */
  function Writes(bucket: string, org: string, name: string, data: seq<Sample>): (w: seq<Write>)
    ensures |w| == |data|
  {
    if data == [] then []
    else [Write(bucket, org, PointOf(name, data[0]))] + Writes(bucket, org, name, data[1..])
  }

  /** Write `k` carries row `k`. */
  lemma {:induction false} WritesAt(bucket: string, org: string, name: string, data: seq<Sample>, k: nat)
    requires k < |data|
    ensures Writes(bucket, org, name, data)[k] == Write(bucket, org, PointOf(name, data[k]))
    decreases k
  {
    if k > 0 {
      WritesAt(bucket, org, name, data[1..], k - 1);
    }
  }

  /** `export_series`: the writes for one series. */
  function SeriesWrites(st: Store, bucket: string, org: string, name: string, start: int, end: int)
    : seq<Write>
  {
    match LookupSeries(st, name)
    case None => []
    case Some(id) => Writes(bucket, org, name, Query(st, id, start, end))
  }

  /** `export_series`: what it logs for one series. */
  function SeriesLog(st: Store, name: string, start: int, end: int): seq<LogLine>
  {
    match LookupSeries(st, name)
    case None => [NoSuchSeries(name)]
    case Some(id) => [Wrote(|Query(st, id, start, end)|)]
  }

  /** The loop of `export` over the series, in argument order: the writes. */
  function AllWrites(st: Store, bucket: string, org: string, names: seq<string>, start: int, end: int)
    : seq<Write>
    decreases |names|
  {
    if names == [] then []
    else SeriesWrites(st, bucket, org, names[0], start, end) + AllWrites(st, bucket, org, names[1..], start, end)
  }

  /** The loop of `export` over the series: the log. */
  function AllLog(st: Store, names: seq<string>, start: int, end: int): seq<LogLine>
    decreases |names|
  {
    if names == [] then []
    else [Exporting(names[0])] + SeriesLog(st, names[0], start, end) + AllLog(st, names[1..], start, end)
  }

  /** A series missing from the `series` table writes nothing and logs an
      error. */
  lemma UnknownSeriesWritesNothing(st: Store, bucket: string, org: string, name: string, start: int, end: int)
    requires name !in st.series
    ensures SeriesWrites(st, bucket, org, name, start, end) == []
    ensures SeriesLog(st, name, start, end) == [NoSuchSeries(name)]
  {
  }

  /** For a known series: exactly one write per stored row of that series
      with `start <= time <= end` (no margin), in time order, each a
      `sample` point with the series as field and tag and a whole-minute
      time within the truncated window. */
  lemma KnownSeriesPoints(st: Store, bucket: string, org: string, name: string, start: int, end: int)
    requires name in st.series
    ensures var w := SeriesWrites(st, bucket, org, name, start, end);
      var id := st.series[name];
      && |w| == |set j | 0 <= j < |st.samples| && InWindow(st.samples[j], id, start, end)|
      && SeriesLog(st, name, start, end) == [Wrote(|w|)]
      && (forall k :: 0 <= k < |w| ==>
            w[k].bucket == bucket && w[k].org == org &&
            w[k].point.measurement == "sample" && w[k].point.field == name &&
            w[k].point.seriesTag == name &&
            w[k].point.seconds % 60 == 0 &&
            TruncMinute(start) <= w[k].point.seconds <= TruncMinute(end))
      && (forall i, j :: 0 <= i < j < |w| ==> w[i].point.seconds <= w[j].point.seconds)
      && multiset(WrittenSamples(w)) == multiset(Selected(st.samples, id, start, end))
      && (forall x: Sample :: multiset(WrittenSamples(w))[x] ==
            |set j | 0 <= j < |st.samples| && InWindow(st.samples[j], id, start, end) && Truncated(st.samples[j]) == x|)
  {
    var id := st.series[name];
    var data := Query(st, id, start, end);
    var w := SeriesWrites(st, bucket, org, name, start, end);
    QueryResult(st, id, start, end);
    SelectedCount(st.samples, id, start, end);
    forall k | 0 <= k < |data| {
      WritesAt(bucket, org, name, data, k);
    }
    assert |data| == |multiset(data)| == |Selected(st.samples, id, start, end)|;
    assert WrittenSamples(w) == data;
    forall x: Sample ensures multiset(WrittenSamples(w))[x] ==
        |set j | 0 <= j < |st.samples| && InWindow(st.samples[j], id, start, end) && Truncated(st.samples[j]) == x| {
      SelectedMultiplicity(st.samples, id, start, end, x);
    }
  }

  /** The series are exported in argument order: the writes for `a + b`
      are those for `a` followed by those for `b`. */
  lemma {:induction false} WritesConcatenate(st: Store, bucket: string, org: string,
                                             a: seq<string>, b: seq<string>, start: int, end: int)
    ensures AllWrites(st, bucket, org, a + b, start, end)
         == AllWrites(st, bucket, org, a, start, end) + AllWrites(st, bucket, org, b, start, end)
    decreases |a|
  {
    if a == [] {
      assert a + b == b;
    } else {
      assert (a + b)[0] == a[0] && (a + b)[1..] == a[1..] + b;
      WritesConcatenate(st, bucket, org, a[1..], b, start, end);
    }
  }

  /** The same for the log. */
  lemma {:induction false} LogConcatenate(st: Store, a: seq<string>, b: seq<string>, start: int, end: int)
    ensures AllLog(st, a + b, start, end) == AllLog(st, a, start, end) + AllLog(st, b, start, end)
    decreases |a|
  {
    if a == [] {
      assert a + b == b;
    } else {
      assert (a + b)[0] == a[0] && (a + b)[1..] == a[1..] + b;
      LogConcatenate(st, a[1..], b, start, end);
    }
  }

  /** Where the points of one run land: the window ends at the current
      whole minute, so with a whole-minute span the exported times lie
      between `end - span` and `end`. */
  lemma ExportWindow(st: Store, bucket: string, org: string, name: string, now: int, span: int)
    requires name in st.series && span % 60 == 0
    ensures var w := MinuteWindow(now, span);
      var pts := SeriesWrites(st, bucket, org, name, w.start, w.end);
      forall k :: 0 <= k < |pts| ==> w.end - span <= pts[k].point.seconds <= w.end <= now
  {
    var w := MinuteWindow(now, span);
    WindowWhole(now, span);
    KnownSeriesPoints(st, bucket, org, name, w.start, w.end);
  }

  /** With a whole-minute span both ends of the window are whole minutes. */
  lemma WindowWhole(now: int, span: int)
    requires span % 60 == 0
    ensures TruncMinute(MinuteWindow(now, span).start) == MinuteWindow(now, span).start
    ensures TruncMinute(MinuteWindow(now, span).end) == MinuteWindow(now, span).end
  {
    var m := now / 60;
    assert span == span / 60 * 60;
    assert MinuteWindow(now, span).start == (m - span / 60) * 60;
    TruncWholeMinute(m);
    TruncWholeMinute(m - span / 60);
  }

  lemma AllSnoc(st: Store, bucket: string, org: string, names: seq<string>, i: nat, start: int, end: int)
    requires i < |names|
    ensures AllWrites(st, bucket, org, names[..i + 1], start, end)
         == AllWrites(st, bucket, org, names[..i], start, end) + SeriesWrites(st, bucket, org, names[i], start, end)
    ensures AllLog(st, names[..i + 1], start, end)
         == AllLog(st, names[..i], start, end) + ([Exporting(names[i])] + SeriesLog(st, names[i], start, end))
  {
    var x := [names[i]];
    assert names[..i + 1] == names[..i] + x;
    assert x[0] == names[i] && x[1..] == [];
    WritesConcatenate(st, bucket, org, names[..i], x, start, end);
    LogConcatenate(st, names[..i], x, start, end);
  }

  lemma WritesSnoc(bucket: string, org: string, name: string, data: seq<Sample>, k: nat)
    requires k < |data|
    ensures Writes(bucket, org, name, data[..k + 1])
         == Writes(bucket, org, name, data[..k]) + [Write(bucket, org, PointOf(name, data[k]))]
  {
    var a := Writes(bucket, org, name, data[..k + 1]);
    var b := Writes(bucket, org, name, data[..k]) + [Write(bucket, org, PointOf(name, data[k]))];
    assert |a| == |b|;
    forall i | 0 <= i < |a| ensures a[i] == b[i] {
      WritesAt(bucket, org, name, data[..k + 1], i);
      if i < k {
        WritesAt(bucket, org, name, data[..k], i);
        assert data[..k + 1][i] == data[..k][i];
      }
    }
  }

  /** The tool's side effects: the writes sent and the log. */
  class Exporter {
    var writes: seq<Write>
    var log: seq<LogLine>

    constructor ()
      ensures writes == [] && log == []
    {
      writes, log := [], [];
    }

    /** `export_series`: the row loop issuing one write per row. */
    method ExportSeries(st: Store, bucket: string, org: string, name: string, start: int, end: int)
      modifies this
      ensures writes == old(writes) + SeriesWrites(st, bucket, org, name, start, end)
      ensures log == old(log) + SeriesLog(st, name, start, end)
    {
      var id := LookupSeries(st, name);
      if id.None? {
        log := log + [NoSuchSeries(name)];
        return;
      }
      var data := Query(st, id.value, start, end);
      ghost var w0 := writes;
      for k := 0 to |data|
        invariant writes == w0 + Writes(bucket, org, name, data[..k])
        invariant log == old(log)
      {
        var point := InfluxPoint("sample", name, data[k].value, name, data[k].time);
        writes := writes + [Write(bucket, org, point)];
        WritesSnoc(bucket, org, name, data, k);
      }
      assert data[..|data|] == data;
      log := log + [Wrote(|data|)];
      assert SeriesWrites(st, bucket, org, name, start, end) == Writes(bucket, org, name, data);
      assert SeriesLog(st, name, start, end) == [Wrote(|data|)];
    }

    /** One iteration of the loop in `export`: log the name, export the
        series. */
    method ExportNamed(st: Store, bucket: string, org: string, names: seq<string>, i: nat,
                       start: int, end: int, ghost w0: seq<Write>, ghost l0: seq<LogLine>)
      requires i < |names|
      requires writes == w0 + AllWrites(st, bucket, org, names[..i], start, end)
      requires log == l0 + AllLog(st, names[..i], start, end)
      modifies this
      ensures writes == w0 + AllWrites(st, bucket, org, names[..i + 1], start, end)
      ensures log == l0 + AllLog(st, names[..i + 1], start, end)
    {
      ghost var w1, l1 := writes, log;
      log := log + [Exporting(names[i])];
      ExportSeries(st, bucket, org, names[i], start, end);
      AllSnoc(st, bucket, org, names, i, start, end);
      AppendAssoc(w0, AllWrites(st, bucket, org, names[..i], start, end), SeriesWrites(st, bucket, org, names[i], start, end));
      AppendAssoc(l1, [Exporting(names[i])], SeriesLog(st, names[i], start, end));
      AppendAssoc(l0, AllLog(st, names[..i], start, end), [Exporting(names[i])] + SeriesLog(st, names[i], start, end));
    }

    /** The loop of `export` over the series. */
    method ExportAll(st: Store, bucket: string, org: string, names: seq<string>, start: int, end: int)
      modifies this
      ensures writes == old(writes) + AllWrites(st, bucket, org, names, start, end)
      ensures log == old(log) + AllLog(st, names, start, end)
    {
      ghost var w0, l0 := writes, log;
      for i := 0 to |names|
        invariant writes == w0 + AllWrites(st, bucket, org, names[..i], start, end)
        invariant log == l0 + AllLog(st, names[..i], start, end)
      {
        ExportNamed(st, bucket, org, names, i, start, end, w0, l0);
      }
      assert names[..|names|] == names;
    }

    /** `export`: the window ending at the current whole minute, then each
        series in argument order. */
    method Export(st: Store, bucket: string, org: string, names: seq<string>, now: int, span: int)
      modifies this
      ensures var w := MinuteWindow(now, span);
        && writes == old(writes) + AllWrites(st, bucket, org, names, w.start, w.end)
        && log == old(log) + AllLog(st, names, w.start, w.end)
    {
      var end := now / 60 * 60;
      var start := end - span;
      ExportAll(st, bucket, org, names, start, end);
    }
  }
}
