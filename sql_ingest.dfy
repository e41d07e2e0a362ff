/** The relational write path shared by both SQL ingesters
    (mqtt_sensors/mqtt_to_sql.py and mqtt_to_sql.py, whose `get_series_id`
    and `update_db` are the same text): the in-memory `series_ids` cache,
    the `last_samples` dedup map, the `series` table (unique names, fresh
    row ids), the `samples` table with rows since the last commit kept
    apart, and the JSON field pass that feeds them.

    The state is given twice: as the value `Db` with functions that say what
    each operation does to it, and as the class `Ingester`, whose methods
    update the same state field by field as the source does and are proved
    to agree with those functions. */
module SqlIngest {
  import opened Basics
  import opened Payload

  /** A row of `samples (time INTEGER, series INTEGER, value REAL)`. */
  datatype Row = Row(time: int, series: int, value: Value)

  /** The ingester's state: the two module-level dicts, the `series` table
      as name -> id, the next row id SQLite hands out, and the `samples`
      table split into committed rows and rows inserted since the last
      commit. */
  datatype Db = Db(seriesIds: map<string, int>, lastSamples: map<string, int>,
                   series: map<string, int>, nextId: int,
                   committed: seq<Row>, pending: seq<Row>)
  {
    /** Every row the connection sees, committed or not. */
    function Rows(): seq<Row> { committed + pending }
  }

  /** The time of the last row of series `id`, if there is one. */
  function LastTime(rows: seq<Row>, id: int): Option<int>
  {
    if rows == [] then None
    else if rows[|rows| - 1].series == id then Some(rows[|rows| - 1].time)
    else LastTime(rows[..|rows| - 1], id)
  }

  lemma LastTimeAppend(rows: seq<Row>, r: Row, id: int)
    ensures LastTime(rows + [r], id) == if r.series == id then Some(r.time) else LastTime(rows, id)
  {
    assert (rows + [r])[..|rows|] == rows;
  }

  /** The consistency of the series registry: the cache agrees with the
      table; names are UNIQUE and ids are a PRIMARY KEY, so the table is
      injective; every id is below the next one handed out. */
  predicate Registry(d: Db)
  {
    && (forall n :: n in d.seriesIds ==> n in d.series && d.series[n] == d.seriesIds[n])
    && (forall a, b :: a in d.series && b in d.series && a != b ==> d.series[a] != d.series[b])
    && (forall n :: n in d.series ==> 1 <= d.series[n] < d.nextId)
    && 1 <= d.nextId
  }

  /** A remembered timestamp is the time of the last row of that source's
      series. */
  predicate Remembered(d: Db)
  {
    forall n :: n in d.lastSamples ==>
      n in d.series && LastTime(d.Rows(), d.series[n]) == Some(d.lastSamples[n])
  }

  /** The consistency the ingester keeps between messages. */
  predicate Valid(d: Db)
  {
    Registry(d) && Remembered(d)
  }

  /** The state right after start-up on an existing database: empty caches,
      nothing pending. */
  function Opened(series: map<string, int>, nextId: int, rows: seq<Row>): Db
  {
    Db(map[], map[], series, nextId, rows, [])
  }

  /** `get_series_id`: the cached id; else the id in the `series` table,
      which is then cached; else a newly inserted row's id, not cached. */
  function AfterResolve(d: Db, name: string): (Db, int)
  {
    if name in d.seriesIds then (d, d.seriesIds[name])
    else if name in d.series then
      (d.(seriesIds := d.seriesIds[name := d.series[name]]), d.series[name])
    else
      (d.(series := d.series[name := d.nextId], nextId := d.nextId + 1), d.nextId)
  }

  /** The outcome of a step that may raise: the state it leaves behind and
      whether a sample was accepted, or the state at the point it raised. */
  datatype Step = Done(db: Db, accepted: bool) | Failed(db: Db, fault: Fault)

  /** `update_db`: formatting the value for the debug log raises on a
      non-number before anything else; an equal last timestamp suppresses
      the sample; otherwise the timestamp is remembered, the series id
      resolved and one row inserted. */
  function AfterUpdate(d: Db, ts: int, source: string, value: JsonValue): Step
  {
    if value.NonNumber? then Failed(d, NotANumber)
    else if source in d.lastSamples && d.lastSamples[source] == ts then Done(d, false)
    else
      var d1 := d.(lastSamples := d.lastSamples[source := ts]);
      var (d2, id) := AfterResolve(d1, source);
      Done(d2.(pending := d2.pending + [Row(ts, id, value.v)]), true)
  }

  /** `db.commit()`: the pending rows become committed. */
  function AfterCommit(d: Db): Db
  {
    d.(committed := d.committed + d.pending, pending := [])
  }

  /** One `if '<key>' in content:` block: when the key is present, the
      value goes to `update_db` under `<node><suffix>` and `updated |=`
      its result. */
  function AfterField(d: Db, node: string, fields: map<string, JsonValue>,
                      rule: FieldRule, now: int, updated: bool): Step
  {
    if rule.key !in fields then Done(d, updated)
    else
      match AfterUpdate(d, now, node + rule.suffix, fields[rule.key])
      case Failed(d1, f) => Failed(d1, f)
      case Done(d1, acc) => Done(d1, updated || acc)
  }

  /** The field blocks in table order; the first one that raises ends the
      pass. */
  function AfterFields(d: Db, node: string, fields: map<string, JsonValue>,
                       rules: seq<FieldRule>, now: int, updated: bool): Step
    decreases |rules|
  {
    if rules == [] then Done(d, updated)
    else
      match AfterField(d, node, fields, rules[0], now, updated)
      case Failed(d1, f) => Failed(d1, f)
      case Done(d1, u1) => AfterFields(d1, node, fields, rules[1..], now, u1)
  }

  /** A JSON message for `node`: decode, run the field blocks, commit when
      at least one sample was accepted. (`handle_json_topic` in
      mqtt_sensors/mqtt_to_sql.py; the body of `on_message` in
      mqtt_to_sql.py.) */
  function AfterJson(d: Db, node: string, doc: Document, rules: seq<FieldRule>, now: int): Step
  {
    match doc
    case Malformed => Failed(d, BadJson)
    case Scalar => Failed(d, NotAMapping)
    case Listlike(members) =>
      if exists i :: 0 <= i < |rules| && rules[i].key in members then Failed(d, NotAMapping)
      else Done(d, false)
    case Object(fields) =>
      match AfterFields(d, node, fields, rules, now, false)
      case Failed(d1, f) => Failed(d1, f)
      case Done(d1, updated) => Done(if updated then AfterCommit(d1) else d1, updated)
  }

  // ---------------------------------------------------------------------
  // Series registry

  /** Resolution keeps the registry consistent, returns the id the
      `series` table holds for the name, keeps every existing name's id, and
      touches neither the samples nor the dedup map. A cached name costs no
      database operation and changes nothing; a name in the table is added
      to the cache; a new name gets a fresh id, different from every
      existing one, and is not cached. */
  lemma ResolveRegistry(d: Db, name: string)
    requires Registry(d)
    ensures var (d', id) := AfterResolve(d, name);
      && Registry(d')
      && name in d'.series && d'.series[name] == id
      && (forall n :: n in d.series ==> n in d'.series && d'.series[n] == d.series[n])
      && d'.committed == d.committed && d'.pending == d.pending && d'.lastSamples == d.lastSamples
      && (name in d.seriesIds ==> d' == d)
      && (name in d.series ==> d'.series == d.series && d'.nextId == d.nextId
                               && d'.seriesIds == d.seriesIds[name := id])
      && (name !in d.series ==> d'.series == d.series[name := id] && d'.seriesIds == d.seriesIds
                                && forall n :: n in d.series ==> d.series[n] != id)
  {
    var (d', id) := AfterResolve(d, name);
    if name in d.seriesIds {
    } else if name in d.series {
      assert d'.series == d.series && d'.seriesIds == d.seriesIds[name := id];
    } else {
      assert d'.series == d.series[name := id] && id == d.nextId && d'.nextId == id + 1;
      assert d'.seriesIds == d.seriesIds;
      forall n | n in d'.seriesIds ensures n in d'.series && d'.series[n] == d'.seriesIds[n] {
        assert n in d.series && n != name;
      }
      forall n | n in d'.series ensures 1 <= d'.series[n] < d'.nextId {
        if n != name {
          assert d'.series[n] == d.series[n];
        }
      }
      forall a, b | a in d'.series && b in d'.series && a != b
        ensures d'.series[a] != d'.series[b]
      {
        if a != name && b != name {
          assert d'.series[a] == d.series[a] && d'.series[b] == d.series[b];
        }
      }
    }
  }

  /** Resolution also keeps the remembered timestamps right. */
  lemma ResolveKeepsValid(d: Db, name: string)
    requires Valid(d)
    ensures Valid(AfterResolve(d, name).0)
  {
    ResolveRegistry(d, name);
    var d' := AfterResolve(d, name).0;
    assert d'.Rows() == d.Rows();
  }

  /** Resolving a name twice gives the same id, although a freshly
      inserted id is not cached: the second call finds it in the table. */
  lemma ResolveIdempotent(d: Db, name: string)
    requires Registry(d)
    ensures AfterResolve(AfterResolve(d, name).0, name).1 == AfterResolve(d, name).1
  {
    ResolveRegistry(d, name);
  }

  /** Distinct names resolve to distinct ids, whatever order they are
      resolved in. */
  lemma ResolveDistinct(d: Db, a: string, b: string)
    requires Registry(d) && a != b
    ensures var (d1, ida) := AfterResolve(d, a);
            AfterResolve(d1, b).1 != ida
  {
    var (d1, ida) := AfterResolve(d, a);
    ResolveRegistry(d, a);
    ResolveRegistry(d1, b);
    var (d2, idb) := AfterResolve(d1, b);
    assert d2.series[a] == ida && d2.series[b] == idb;
  }

  /** New series get ids in creation order. */
  lemma ResolveCreationOrder(d: Db, a: string, b: string)
    requires Registry(d) && a != b && a !in d.series && b !in d.series
    ensures var (d1, ida) := AfterResolve(d, a);
            ida < AfterResolve(d1, b).1
  {
  }

  // ---------------------------------------------------------------------
  // Dedup and insertion

  /** `update_db` on a number: it is suppressed exactly when the source's
      remembered timestamp equals `ts`, and then nothing changes; otherwise
      `ts` is remembered, exactly one row `(ts, id, value)` is appended to
      the pending rows, where `id` is the source's series id, nothing is
      committed, and the state stays consistent. An earlier timestamp is not
      suppressed. */
  lemma UpdateAcceptsUnlessEqual(d: Db, ts: int, source: string, v: Value)
    requires Valid(d)
    ensures AfterUpdate(d, ts, source, Number(v)).Done?
    ensures var r := AfterUpdate(d, ts, source, Number(v));
      && (r.accepted <==> !(source in d.lastSamples && d.lastSamples[source] == ts))
      && (!r.accepted ==> r.db == d)
      && (r.accepted ==>
            && Valid(r.db)
            && r.db.lastSamples == d.lastSamples[source := ts]
            && source in r.db.series
            && r.db.committed == d.committed
            && r.db.pending == d.pending + [Row(ts, r.db.series[source], v)]
            && (source in d.series ==> r.db.series == d.series))
  {
    if !(source in d.lastSamples && d.lastSamples[source] == ts) {
      var d1 := d.(lastSamples := d.lastSamples[source := ts]);
      ResolveRegistry(d1, source);
      var (d2, id) := AfterResolve(d1, source);
      var d3 := d2.(pending := d2.pending + [Row(ts, id, v)]);
      assert d2.Rows() == d.Rows();
      assert d3.Rows() == d2.Rows() + [Row(ts, id, v)];
      forall n | n in d3.lastSamples
        ensures n in d3.series && LastTime(d3.Rows(), d3.series[n]) == Some(d3.lastSamples[n])
      {
        LastTimeAppend(d2.Rows(), Row(ts, id, v), d3.series[n]);
        if n != source {
          assert n in d.lastSamples && n in d.series && d2.series[n] == d.series[n];
          assert d3.series[n] != d3.series[source];
        }
      }
    }
  }

  /** A non-number raises before the dedup check and changes nothing. */
  lemma UpdateRejectsNonNumber(d: Db, ts: int, source: string)
    ensures AfterUpdate(d, ts, source, NonNumber) == Failed(d, NotANumber)
  {
  }

  /** Delivering the same reading again with the same timestamp is
      suppressed, whatever its value: the row count does not change. */
  lemma RepeatSuppressed(d: Db, ts: int, source: string, v: Value, w: Value)
    requires Valid(d)
    ensures var r := AfterUpdate(d, ts, source, Number(v));
            AfterUpdate(r.db, ts, source, Number(w)) == Done(r.db, false)
  {
    UpdateAcceptsUnlessEqual(d, ts, source, v);
  }

  /** Within one run a suppressed sample is never lost: its timestamp is
      that of the last stored row of the same series. */
  lemma SuppressedIsStored(d: Db, ts: int, source: string, v: Value)
    requires Valid(d)
    requires !AfterUpdate(d, ts, source, Number(v)).accepted
    ensures source in d.series && LastTime(d.Rows(), d.series[source]) == Some(ts)
  {
  }

  /** The dedup compares for equality only: samples at 5, 6 and again 5
      all get stored, so two rows of one series share timestamp 5. */
  lemma EarlierTimestampStoredTwice(v: Value)
    ensures var d0 := Opened(map[], 1, []);
      var d1 := AfterUpdate(d0, 5, "s", Number(v)).db;
      var d2 := AfterUpdate(d1, 6, "s", Number(v)).db;
      var d3 := AfterUpdate(d2, 5, "s", Number(v)).db;
      d3.Rows() == [Row(5, 1, v), Row(6, 1, v), Row(5, 1, v)]
  {
    var d0 := Opened(map[], 1, []);
    var d1 := AfterUpdate(d0, 5, "s", Number(v)).db;
    assert d1.series == map["s" := 1] && d1.pending == [Row(5, 1, v)];
    var d2 := AfterUpdate(d1, 6, "s", Number(v)).db;
    assert d2.series == map["s" := 1] && d2.lastSamples == map["s" := 6];
  }

  /** Committing keeps the state consistent and the rows in order. */
  lemma CommitKeepsRows(d: Db)
    requires Valid(d)
    ensures Valid(AfterCommit(d)) && AfterCommit(d).Rows() == d.Rows()
    ensures AfterCommit(d).pending == []
  {
    assert AfterCommit(d).Rows() == d.Rows();
  }

  // ---------------------------------------------------------------------
  // The JSON field pass

  /** The field pass keeps the state consistent and only appends rows:
      when it completes, `updated` reports exactly whether it appended any;
      nothing is committed during the pass. */
  lemma {:induction false} FieldsAppendOnly(d: Db, node: string, fields: map<string, JsonValue>,
                                            rules: seq<FieldRule>, now: int, updated: bool)
    requires Valid(d)
    ensures var r := AfterFields(d, node, fields, rules, now, updated);
      && Valid(r.db) && r.db.committed == d.committed
      && |r.db.pending| >= |d.pending| && r.db.pending[..|d.pending|] == d.pending
      && (r.Done? ==> (r.accepted <==> updated || |r.db.pending| > |d.pending|))
    decreases |rules|
  {
    if rules != [] {
      var rule := rules[0];
      if rule.key in fields {
        match fields[rule.key]
        case NonNumber =>
        case Number(v) =>
          UpdateAcceptsUnlessEqual(d, now, node + rule.suffix, v);
          var d1 := AfterUpdate(d, now, node + rule.suffix, Number(v)).db;
          var acc := AfterUpdate(d, now, node + rule.suffix, Number(v)).accepted;
          assert AfterField(d, node, fields, rule, now, updated) == Done(d1, updated || acc);
          assert d1.pending[..|d.pending|] == d.pending;
          FieldsAppendOnly(d1, node, fields, rules[1..], now, updated || acc);
          var r := AfterFields(d1, node, fields, rules[1..], now, updated || acc);
          assert AfterFields(d, node, fields, rules, now, updated) == r;
          assert r.db.pending[..|d.pending|] == r.db.pending[..|d1.pending|][..|d.pending|];
      } else {
        FieldsAppendOnly(d, node, fields, rules[1..], now, updated);
      }
    }
  }

  /** `commit` happens exactly when at least one field was accepted; a
      message that raises part-way keeps what it inserted before raising,
      uncommitted, and skips the remaining fields and the commit. */
  lemma JsonCommitsIffAccepted(d: Db, node: string, doc: Document, rules: seq<FieldRule>, now: int)
    requires Valid(d)
    ensures var r := AfterJson(d, node, doc, rules, now);
      && Valid(r.db)
      && |r.db.Rows()| >= |d.Rows()| && r.db.Rows()[..|d.Rows()|] == d.Rows()
      && (r.Done? && r.accepted ==> |r.db.Rows()| > |d.Rows()| && r.db.pending == [])
      && (r.Done? && !r.accepted ==> r.db == d)
      && (r.Failed? ==> r.db.committed == d.committed)
  {
    match doc
    case Malformed =>
    case Scalar =>
    case Listlike(_) =>
    case Object(fields) =>
      FieldsAppendOnly(d, node, fields, rules, now, false);
      var r := AfterFields(d, node, fields, rules, now, false);
      assert r.db.Rows()[..|d.Rows()|] == d.Rows();
      if r.Done? && r.accepted {
        CommitKeepsRows(r.db);
      }
      if r.Done? && !r.accepted {
        NoAcceptNoChange(d, node, fields, rules, now);
      }
  }

  /** A field pass that accepts nothing changes nothing. */
  lemma {:induction false} NoAcceptNoChange(d: Db, node: string, fields: map<string, JsonValue>,
                                            rules: seq<FieldRule>, now: int)
    requires Valid(d)
    requires AfterFields(d, node, fields, rules, now, false) == Done(AfterFields(d, node, fields, rules, now, false).db, false)
    ensures AfterFields(d, node, fields, rules, now, false).db == d
    decreases |rules|
  {
    if rules != [] {
      var rule := rules[0];
      if rule.key in fields {
        match fields[rule.key]
        case NonNumber =>
        case Number(v) =>
          UpdateAcceptsUnlessEqual(d, now, node + rule.suffix, v);
          var acc := AfterUpdate(d, now, node + rule.suffix, Number(v)).accepted;
          if acc {
            FieldsAppendOnly(AfterUpdate(d, now, node + rule.suffix, Number(v)).db,
                             node, fields, rules[1..], now, true);
          } else {
            NoAcceptNoChange(d, node, fields, rules[1..], now);
          }
      } else {
        NoAcceptNoChange(d, node, fields, rules[1..], now);
      }
    }
  }

  /** Keys outside the table are ignored: adding one to the message
      changes nothing. */
  lemma {:induction false} FieldsIgnoreUnknownKeys(d: Db, node: string, fields: map<string, JsonValue>,
                                                   rules: seq<FieldRule>, now: int, updated: bool,
                                                   key: string, value: JsonValue)
    requires !IsRuleKey(rules, key)
    ensures AfterFields(d, node, fields[key := value], rules, now, updated)
         == AfterFields(d, node, fields, rules, now, updated)
    decreases |rules|
  {
    if rules != [] {
      assert rules[0].key != key;
      forall i | 0 <= i < |rules[1..]| ensures rules[1..][i].key != key {
        assert rules[1..][i] == rules[i + 1];
      }
      var a := AfterField(d, node, fields[key := value], rules[0], now, updated);
      assert a == AfterField(d, node, fields, rules[0], now, updated);
      if a.Done? {
        FieldsIgnoreUnknownKeys(a.db, node, fields, rules[1..], now, a.accepted, key, value);
      }
    }
  }

  /** The JSON handler inside `on_message`'s `try`: the new state and the
      warning logged, if the handler raised. */
  function Handle(d: Db, node: string, doc: Document, now: int): (Db, seq<Fault>)
  {
    match AfterJson(d, node, doc, SqlFields, now)
    case Failed(d1, f) => (d1, [f])
    case Done(d1, _) => (d1, [])
  }

  /** Field blocks whose keys are all absent change nothing. */
  lemma {:induction false} FieldsAbsent(d: Db, node: string, fields: map<string, JsonValue>,
                                        rules: seq<FieldRule>, now: int, updated: bool)
    requires forall i :: 0 <= i < |rules| ==> rules[i].key !in fields
    ensures AfterFields(d, node, fields, rules, now, updated) == Done(d, updated)
    decreases |rules|
  {
    if rules != [] {
      assert rules[0].key !in fields;
      FieldsAbsent(d, node, fields, rules[1..], now, updated);
    }
  }

  /** The first temperature reading of a node on an empty database
      creates series 1 named `<node>-t` and is committed at once. */
  lemma FirstFieldStored(topic: string, v: Value, now: int)
    ensures AfterJson(Opened(map[], 1, []), topic, Object(map["temperature" := Number(v)]), SqlFields, now)
         == Done(Db(map[], map[topic + "-t" := now], map[topic + "-t" := 1], 2, [Row(now, 1, v)], []), true)
  {
    var fields := map["temperature" := Number(v)];
    var d0 := Opened(map[], 1, []);
    var d1 := Db(map[], map[topic + "-t" := now], map[topic + "-t" := 1], 2, [], [Row(now, 1, v)]);
    assert AfterUpdate(d0, now, topic + "-t", Number(v)) == Done(d1, true);
    assert AfterField(d0, topic, fields, SqlFields[0], now, false) == Done(d1, true);
    assert forall i :: 0 <= i < |SqlFields[1..]| ==> SqlFields[1..][i].key !in fields;
    FieldsAbsent(d1, topic, fields, SqlFields[1..], now, true);
  }

  // ---------------------------------------------------------------------
  // The imperative ingester

  /** The module-level state of an SQL ingester: `series_ids`,
      `last_samples` and the open database connection. */
  class Ingester {
    var seriesIds: map<string, int>
    var lastSamples: map<string, int>
    var series: map<string, int>
    var nextId: int
    var committed: seq<Row>
    var pending: seq<Row>

    function State(): Db
      reads this
    {
      Db(seriesIds, lastSamples, series, nextId, committed, pending)
    }

    predicate Consistent()
      reads this
    {
      Valid(State())
    }

    /** Start-up on a database whose tables already exist
        (`CREATE TABLE IF NOT EXISTS`): both dicts start empty. */
    constructor (series0: map<string, int>, nextId0: int, rows: seq<Row>)
      requires Valid(Opened(series0, nextId0, rows))
      ensures State() == Opened(series0, nextId0, rows) && Consistent()
    {
      seriesIds, lastSamples := map[], map[];
      series, nextId := series0, nextId0;
      committed, pending := rows, [];
    }

    /** `get_series_id`. It runs after `update_db` has already stored the
        new timestamp, so it asks only for a consistent registry. */
    method GetSeriesId(name: string) returns (id: int)
      requires Registry(State())
      modifies this
      ensures (State(), id) == AfterResolve(old(State()), name)
      ensures Registry(State()) && name in series && series[name] == id
    {
      ResolveRegistry(State(), name);
      if name in seriesIds {
        id := seriesIds[name];
        return;
      }
      if name in series {
        id := series[name];
        seriesIds := seriesIds[name := id];
        return;
      }
      id := nextId;
      series := series[name := id];
      nextId := nextId + 1;
    }

    /** `update_db`; `fault` is the exception it raises, if any. */
    method UpdateDb(ts: int, source: string, value: JsonValue) returns (accepted: bool, fault: Option<Fault>)
      requires Consistent()
      modifies this
      ensures Consistent()
      ensures AfterUpdate(old(State()), ts, source, value) ==
              if fault.Some? then Failed(State(), fault.value) else Done(State(), accepted)
    {
      if value.NonNumber? {
        return false, Some(NotANumber);
      }
      UpdateAcceptsUnlessEqual(State(), ts, source, value.v);
      if source in lastSamples && lastSamples[source] == ts {
        return false, None;
      }
      lastSamples := lastSamples[source := ts];
      var id := GetSeriesId(source);
      pending := pending + [Row(ts, id, value.v)];
      return true, None;
    }

    /** `db.commit()`. */
    method Commit()
      requires Consistent()
      modifies this
      ensures State() == AfterCommit(old(State())) && Consistent()
    {
      CommitKeepsRows(State());
      committed, pending := committed + pending, [];
    }

    /** One `if '<key>' in content:` block with its `updated |=`. */
    method TryField(node: string, fields: map<string, JsonValue>, rule: FieldRule,
                    now: int, updated: bool) returns (updated': bool, fault: Option<Fault>)
      requires Consistent()
      modifies this
      ensures Consistent()
      ensures AfterField(old(State()), node, fields, rule, now, updated) ==
              if fault.Some? then Failed(State(), fault.value) else Done(State(), updated')
    {
      updated', fault := updated, None;
      if rule.key in fields {
        var accepted;
        accepted, fault := UpdateDb(now, node + rule.suffix, fields[rule.key]);
        updated' := updated || accepted;
      }
    }

    /** A decoded JSON message for `node`: the field blocks in the order of
        `rules`, each `if` in turn, then the commit when one of them
        accepted a sample; an exception ends the handler where it is
        raised. */
    method HandleJson(node: string, doc: Document, rules: seq<FieldRule>, now: int)
      returns (updated: bool, fault: Option<Fault>)
      requires Consistent()
      modifies this
      ensures Consistent()
      ensures AfterJson(old(State()), node, doc, rules, now) ==
              if fault.Some? then Failed(State(), fault.value) else Done(State(), updated)
    {
      updated, fault := false, None;
      match doc
      case Malformed =>
        return false, Some(BadJson);
      case Scalar =>
        return false, Some(NotAMapping);
      case Listlike(members) =>
        var i := 0;
        while i < |rules|
          invariant 0 <= i <= |rules|
          invariant forall j :: 0 <= j < i ==> rules[j].key !in members
        {
          if rules[i].key in members {
            return false, Some(NotAMapping);
          }
          i := i + 1;
        }
        return false, None;
      case Object(_) =>
      var fields := doc.fields;
      ghost var d0 := State();
      var i := 0;
      while i < |rules|
        invariant 0 <= i <= |rules| && Consistent() && fault.None?
        invariant AfterFields(d0, node, fields, rules, now, false)
               == AfterFields(State(), node, fields, rules[i..], now, updated)
      {
        assert rules[i..][0] == rules[i] && rules[i..][1..] == rules[i + 1..];
        ghost var before, u := State(), updated;
        updated, fault := TryField(node, fields, rules[i], now, updated);
        if fault.Some? {
          assert AfterFields(before, node, fields, rules[i..], now, u) == Failed(State(), fault.value);
          return;
        }
        i := i + 1;
      }
      assert rules[i..] == [];
      assert AfterJson(d0, node, doc, rules, now) == Done(if updated then AfterCommit(State()) else State(), updated);
      ghost var last := State();
      if updated {
        Commit();
      }
      assert State() == if updated then AfterCommit(last) else last;
    }
  }
}
