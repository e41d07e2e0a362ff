/** The read side of the samples database, shared by plot_sql.py and both
    copies of sql_to_influxdb.py: `get_series_id` over the `series` table,
    the `SELECT (time/60*60) as time, value ... ORDER BY time` query, and the
    time window ending at the current whole minute. */
module SampleTable {
  import opened Basics
  import opened SqlIngest

  /** The database as a read-only connection sees it: the `series` table as
      name -> id and the committed `samples` rows in table order. */
  datatype Store = Store(series: map<string, int>, samples: seq<Row>)

  /** A row of the query result: the minute-truncated time and the value. */
  datatype Sample = Sample(time: int, value: Value)

  /** `get_series_id` of the read-side tools: the id of the `series` row
      called `name`, or None (Python's implicit `return None`). */
  function LookupSeries(st: Store, name: string): (r: Option<int>)
    ensures r.Some? <==> name in st.series
    ensures r.Some? ==> r.value == st.series[name]
  {
    if name in st.series then Some(st.series[name]) else None
  }

  /** SQLite's `time/60*60` on an integer column: the division truncates
      toward zero, so a negative time rounds up to a minute boundary. */
  function TruncMinute(t: int): (m: int)
  {
    if t >= 0 then t / 60 * 60 else -((-t) / 60 * 60)
  }

  /** The truncated time is a whole minute, at most 59 seconds from the
      original, on the side of zero. */
  lemma TruncMinuteBounds(t: int)
    ensures TruncMinute(t) % 60 == 0
    ensures 0 <= t ==> TruncMinute(t) <= t < TruncMinute(t) + 60
    ensures t < 0 ==> TruncMinute(t) - 60 < t <= TruncMinute(t)
  {
  }

  /** Truncation keeps order: a later sample never gets an earlier minute. */
  lemma TruncMinuteMonotone(a: int, b: int)
    requires a <= b
    ensures TruncMinute(a) <= TruncMinute(b)
  {
    TruncMinuteBounds(a);
    TruncMinuteBounds(b);
  }

  /** A whole minute is its own truncation. */
  lemma TruncWholeMinute(k: int)
    ensures TruncMinute(k * 60) == k * 60
  {
    if k < 0 {
      assert -(k * 60) == (-k) * 60;
    }
  }

  /** `WHERE series=? AND time >= ? AND time <= ?`: the bounds apply to the
      stored time, not to the truncated one (a WHERE clause resolves `time`
      to the column before the result alias). */
  predicate InWindow(r: Row, id: int, lo: int, hi: int)
  {
    r.series == id && lo <= r.time <= hi
  }

  function Truncated(r: Row): Sample
  {
    Sample(TruncMinute(r.time), r.value)
  }

  /** `s` is the result row of some stored row in the window. */
  ghost predicate FromWindow(s: Sample, rows: seq<Row>, id: int, lo: int, hi: int)
  {
    exists j :: 0 <= j < |rows| && InWindow(rows[j], id, lo, hi) && s == Truncated(rows[j])
  }

  lemma FromWindowPrefix(s: Sample, rows: seq<Row>, n: nat, id: int, lo: int, hi: int)
    requires n <= |rows| && FromWindow(s, rows[..n], id, lo, hi)
    ensures FromWindow(s, rows, id, lo, hi)
  {
    var j :| 0 <= j < n && InWindow(rows[..n][j], id, lo, hi) && s == Truncated(rows[..n][j]);
    assert rows[..n][j] == rows[j];
  }

  /** The rows the WHERE clause keeps, in table order, as result rows. */
  function Selected(rows: seq<Row>, id: int, lo: int, hi: int): (r: seq<Sample>)
    ensures |r| <= |rows|
    ensures forall k :: 0 <= k < |r| ==> FromWindow(r[k], rows, id, lo, hi)
    decreases |rows|
  {
    if rows == [] then []
    else
      var n := |rows| - 1;
      var init := Selected(rows[..n], id, lo, hi);
      var r := init + if InWindow(rows[n], id, lo, hi) then [Truncated(rows[n])] else [];
      assert forall k :: 0 <= k < |r| ==> FromWindow(r[k], rows, id, lo, hi) by {
        forall k | 0 <= k < |r| ensures FromWindow(r[k], rows, id, lo, hi) {
          if k < |init| {
            FromWindowPrefix(r[k], rows, n, id, lo, hi);
          }
        }
      }
      r
  }

  /** Every row in the window is in the result. */
  lemma {:induction false} SelectedComplete(rows: seq<Row>, id: int, lo: int, hi: int, j: int)
    requires 0 <= j < |rows| && InWindow(rows[j], id, lo, hi)
    ensures Truncated(rows[j]) in Selected(rows, id, lo, hi)
    decreases |rows|
  {
    if j < |rows| - 1 {
      SelectedComplete(rows[..|rows| - 1], id, lo, hi, j);
    }
  }

  /** Rows of other series and rows outside the bounds do not count: the
      result has exactly one entry per row in the window. */
  lemma {:induction false} SelectedCount(rows: seq<Row>, id: int, lo: int, hi: int)
    ensures |Selected(rows, id, lo, hi)| == |set j | 0 <= j < |rows| && InWindow(rows[j], id, lo, hi)|
    decreases |rows|
  {
    if rows != [] {
      var n := |rows| - 1;
      SelectedCount(rows[..n], id, lo, hi);
      var before := set j | 0 <= j < n && InWindow(rows[..n][j], id, lo, hi);
      var all := set j | 0 <= j < |rows| && InWindow(rows[j], id, lo, hi);
      if InWindow(rows[n], id, lo, hi) {
        assert all == before + {n};
      } else {
        assert all == before;
      }
    }
  }

  /** The indices of the rows in the window that truncate to `x`. */
  function RowsOf(rows: seq<Row>, id: int, lo: int, hi: int, x: Sample): set<int>
  {
    set j | 0 <= j < |rows| && InWindow(rows[j], id, lo, hi) && Truncated(rows[j]) == x
  }

  lemma RowsOfStep(rows: seq<Row>, id: int, lo: int, hi: int, x: Sample)
    requires rows != []
    ensures var n := |rows| - 1;
      |RowsOf(rows, id, lo, hi, x)| == |RowsOf(rows[..n], id, lo, hi, x)| +
        if InWindow(rows[n], id, lo, hi) && Truncated(rows[n]) == x then 1 else 0
  {
    var n := |rows| - 1;
    var init := rows[..n];
    var before := RowsOf(init, id, lo, hi, x);
    var last := if InWindow(rows[n], id, lo, hi) && Truncated(rows[n]) == x then {n} else {};
    forall j ensures j in RowsOf(rows, id, lo, hi, x) <==> j in before + last {
      if 0 <= j < n {
        assert init[j] == rows[j];
      }
    }
    assert RowsOf(rows, id, lo, hi, x) == before + last;
    assert n !in before;
  }

  /** Each result row occurs as often as there are stored rows in the window
      that truncate to it: one entry per stored row, duplicates included. */
  lemma {:induction false} SelectedMultiplicity(rows: seq<Row>, id: int, lo: int, hi: int, x: Sample)
    ensures multiset(Selected(rows, id, lo, hi))[x] ==
      |set j | 0 <= j < |rows| && InWindow(rows[j], id, lo, hi) && Truncated(rows[j]) == x|
    decreases |rows|
  {
    assert RowsOf(rows, id, lo, hi, x) ==
      set j | 0 <= j < |rows| && InWindow(rows[j], id, lo, hi) && Truncated(rows[j]) == x;
    if rows != [] {
      var n := |rows| - 1;
      SelectedMultiplicity(rows[..n], id, lo, hi, x);
      assert RowsOf(rows[..n], id, lo, hi, x) ==
        set j | 0 <= j < |rows[..n]| && InWindow(rows[..n][j], id, lo, hi) && Truncated(rows[..n][j]) == x;
      RowsOfStep(rows, id, lo, hi, x);
    }
  }

  predicate SortedByTime(s: seq<Sample>)
  {
    forall i, j :: 0 <= i < j < |s| ==> s[i].time <= s[j].time
  }

  /** Places `x` after every element whose time is not later than its own. */
  function Insert(x: Sample, s: seq<Sample>): (r: seq<Sample>)
    requires SortedByTime(s)
    ensures SortedByTime(r)
    ensures multiset(r) == multiset(s) + multiset{x}
    ensures |r| == |s| + 1 && (r[0] == x || (s != [] && r[0] == s[0]))
  {
    if s == [] then [x]
    else if x.time < s[0].time then [x] + s
    else
      var rest := Insert(x, s[1..]);
      assert s == [s[0]] + s[1..];
      [s[0]] + rest
  }

  /** `ORDER BY time`: ordered by the truncated time (ORDER BY resolves
      `time` to the result alias). */
  function SortByTime(s: seq<Sample>): (r: seq<Sample>)
    ensures SortedByTime(r)
    ensures multiset(r) == multiset(s)
  {
    if s == [] then []
    else
      assert s == s[..|s| - 1] + [s[|s| - 1]];
      Insert(s[|s| - 1], SortByTime(s[..|s| - 1]))
  }

  /** The whole query for series `id` between `lo` and `hi`. */
  function Query(st: Store, id: int, lo: int, hi: int): seq<Sample>
  {
    SortByTime(Selected(st.samples, id, lo, hi))
  }

  /** Each result row comes from a stored row in the window. */
  lemma QueryRow(st: Store, id: int, lo: int, hi: int, k: int) returns (j: int)
    requires 0 <= k < |Query(st, id, lo, hi)|
    ensures 0 <= j < |st.samples| && InWindow(st.samples[j], id, lo, hi)
    ensures Query(st, id, lo, hi)[k] == Truncated(st.samples[j])
  {
    var q := Query(st, id, lo, hi);
    var sel := Selected(st.samples, id, lo, hi);
    assert q[k] in multiset(q);
    assert q[k] in multiset(sel);
    var m :| 0 <= m < |sel| && sel[m] == q[k];
    assert FromWindow(sel[m], st.samples, id, lo, hi);
    j :| 0 <= j < |st.samples| && InWindow(st.samples[j], id, lo, hi) && sel[m] == Truncated(st.samples[j]);
  }

  /** The query result is in time order, holds exactly the rows in the
      window (as a multiset), and every time is a whole minute between the
      truncations of the bounds. */
  lemma QueryResult(st: Store, id: int, lo: int, hi: int)
    ensures SortedByTime(Query(st, id, lo, hi))
    ensures multiset(Query(st, id, lo, hi)) == multiset(Selected(st.samples, id, lo, hi))
    ensures forall k :: 0 <= k < |Query(st, id, lo, hi)| ==>
      Query(st, id, lo, hi)[k].time % 60 == 0 &&
      TruncMinute(lo) <= Query(st, id, lo, hi)[k].time <= TruncMinute(hi)
  {
    var q := Query(st, id, lo, hi);
    forall k | 0 <= k < |q| ensures q[k].time % 60 == 0 && TruncMinute(lo) <= q[k].time <= TruncMinute(hi) {
      var j := QueryRow(st, id, lo, hi, k);
      TruncMinuteBounds(st.samples[j].time);
      TruncMinuteMonotone(lo, st.samples[j].time);
      TruncMinuteMonotone(st.samples[j].time, hi);
    }
  }

  /** The time window both read-side tools use:
      `end = int(now // 60) * 60` and `start = end - span`. */
  datatype Window = Window(start: int, end: int)

  function MinuteWindow(now: int, span: int): (w: Window)
    ensures w.end % 60 == 0 && w.end <= now < w.end + 60
    ensures w.end - w.start == span
  {
    var e := now / 60 * 60;
    Window(e - span, e)
  }
}
