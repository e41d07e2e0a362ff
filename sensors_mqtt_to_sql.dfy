/** The MQTT-to-SQLite ingester of mqtt_sensors/mqtt_to_sql.py: two topic
    entries, each a subscription filter and the regex its messages are
    matched with, both handled by `handle_json_topic`, which receives the
    WHOLE matched text (`match[0]`) as the node name. */
module SensorsMqttToSql {
  import opened Basics
  import opened Payload
  import opened Topics
  import opened SqlIngest

  /** The literal prefixes of the two `topic_data` regexes,
      `zigbee2mqtt/(.*)` and `shelly/(.*)`, in table order; both entries'
      handler is `handle_json_topic`. */
  const Prefixes: seq<string> := ["zigbee2mqtt/", "shelly/"]

  /** The entries' prefixes hold no regex metacharacter, so each regex
      compiles to the literals of its prefix and one `(.*)` group. */
  lemma EntryCompiles(i: nat)
    requires i < |Prefixes|
    ensures Compile(Prefixes[i] + "(.*)") == Some(Pattern(Prefixes[i]))
  {
    var p := Prefixes[i];
    forall j | 0 <= j < |p| ensures p[j] !in MetaChars {
      assert 'a' <= p[j] <= 'z' || '0' <= p[j] <= '9' || p[j] == '/';
    }
    PrefixGroupCompiles(p, AnyButNewline);
  }

  /** One table entry of `on_message`: when its regex matches, the
      handler runs and an exception it raises is added to the warnings. */
  function AfterEntry(d: Db, prefix: string, topic: string, doc: Document, now: int,
                      warnings: seq<Fault>): (Db, seq<Fault>)
  {
    match MatchedText(Pattern(prefix), topic)
    case None => (d, warnings)
    case Some(node) =>
      var (d1, w) := Handle(d, node, doc, now);
      (d1, warnings + w)
  }

  /** `on_message` over the entries `prefixes`, in order. */
  function AfterTopics(d: Db, prefixes: seq<string>, topic: string, doc: Document, now: int,
                       warnings: seq<Fault>): (Db, seq<Fault>)
    decreases |prefixes|
  {
    if prefixes == [] then (d, warnings)
    else
      var (d1, w1) := AfterEntry(d, prefixes[0], topic, doc, now, warnings);
      AfterTopics(d1, prefixes[1..], topic, doc, now, w1)
  }

  function AfterMessage(d: Db, topic: string, doc: Document, now: int): (Db, seq<Fault>)
  {
    AfterTopics(d, Prefixes, topic, doc, now, [])
  }

  /** No topic matches both regexes. */
  lemma AtMostOneEntry(topic: string)
    ensures !(Prefixes[0] <= topic && Prefixes[1] <= topic)
  {
    if Prefixes[0] <= topic {
      assert topic[0] == 'z';
    }
  }

  /** Routing over a two-entry table whose prefixes no topic has both. */
  lemma RoutingTwo(d: Db, p0: string, p1: string, topic: string, doc: Document, now: int)
    requires !(p0 <= topic && p1 <= topic)
    ensures AfterTopics(d, [p0, p1], topic, doc, now, []) ==
      if p0 <= topic then Handle(d, NodeName(p0, topic), doc, now)
      else if p1 <= topic then Handle(d, NodeName(p1, topic), doc, now)
      else (d, [])
  {
    MatchedTextIsNode(p0, topic);
    MatchedTextIsNode(p1, topic);
    var ps := [p0, p1];
    assert ps[0] == p0 && ps[1..] == [p1] && [p1][0] == p1 && [p1][1..] == [];
    var (d1, w1) := AfterEntry(d, p0, topic, doc, now, []);
    var (d2, w2) := AfterEntry(d1, p1, topic, doc, now, w1);
    assert AfterTopics(d, ps, topic, doc, now, []) == AfterTopics(d1, [p1], topic, doc, now, w1);
    assert AfterTopics(d1, [p1], topic, doc, now, w1) == AfterTopics(d2, [], topic, doc, now, w2);
    if p0 <= topic {
      assert [] + Handle(d, NodeName(p0, topic), doc, now).1 == Handle(d, NodeName(p0, topic), doc, now).1;
    } else if p1 <= topic {
      assert [] + Handle(d, NodeName(p1, topic), doc, now).1 == Handle(d, NodeName(p1, topic), doc, now).1;
    }
  }

  /** Routing: a topic under `zigbee2mqtt/` or `shelly/` is handled once,
      as a JSON message, under the node name that is the topic itself up to
      its first newline (prefix included); the warning is the exception the
      handler raised; any other topic changes nothing. */
  lemma MessageRouting(d: Db, topic: string, doc: Document, now: int)
    ensures AfterMessage(d, topic, doc, now) ==
      if Prefixes[0] <= topic then Handle(d, NodeName(Prefixes[0], topic), doc, now)
      else if Prefixes[1] <= topic then Handle(d, NodeName(Prefixes[1], topic), doc, now)
      else (d, [])
  {
    AtMostOneEntry(topic);
    assert Prefixes == [Prefixes[0], Prefixes[1]];
    RoutingTwo(d, Prefixes[0], Prefixes[1], topic, doc, now);
  }

  /** A single-line zigbee2mqtt topic is stored under series names that
      begin with the whole topic: the first temperature reading of
      `zigbee2mqtt/kitchen` goes to a new series `zigbee2mqtt/kitchen-t`,
      committed at once. */
  lemma FirstReadingStored(topic: string, v: Value, now: int)
    requires Prefixes[0] <= topic && '\n' !in topic
    ensures var d := AfterMessage(Opened(map[], 1, []), topic,
                                  Object(map["temperature" := Number(v)]), now).0;
      d.series == map[topic + "-t" := 1]
      && d.committed == [Row(now, 1, v)] && d.pending == []
  {
    var fields := map["temperature" := Number(v)];
    ZigbeeNodeIsTopic(Opened(map[], 1, []), topic, Object(fields), now);
    FirstFieldStored(topic, v, now);
  }

  /** A zigbee2mqtt topic without a newline is handled under the whole
      topic as node name. */
  lemma ZigbeeNodeIsTopic(d: Db, topic: string, doc: Document, now: int)
    requires Prefixes[0] <= topic && '\n' !in topic
    ensures AfterMessage(d, topic, doc, now) == Handle(d, topic, doc, now)
  {
    MessageRouting(d, topic, doc, now);
    NodeNameWholeTopic(Prefixes[0], topic);
  }

  /** One table entry of `on_message`: match, run the handler, log what it
      raised. */
  method HandleEntry(db: Ingester, prefix: string, topic: string, doc: Document, now: int,
                     warnings: seq<Fault>) returns (warnings': seq<Fault>)
    requires db.Consistent()
    modifies db
    ensures db.Consistent()
    ensures (db.State(), warnings') == AfterEntry(old(db.State()), prefix, topic, doc, now, warnings)
  {
    warnings' := warnings;
    var m := MatchAt(Pattern(prefix), topic);
    if m.Some? {
      var node := topic[..m.value.len];
      var updated, fault := db.HandleJson(node, doc, SqlFields, now);
      if fault.Some? {
        warnings' := warnings + [fault.value];
      } else {
        assert warnings + [] == warnings;
      }
    }
  }

  /** `on_message`: each table entry in turn; a handler exception becomes
      a logged warning and the loop goes on. */
  method OnMessage(db: Ingester, topic: string, doc: Document, now: int) returns (warnings: seq<Fault>)
    requires db.Consistent()
    modifies db
    ensures db.Consistent()
    ensures (db.State(), warnings) == AfterMessage(old(db.State()), topic, doc, now)
  {
    warnings := [];
    ghost var d0 := db.State();
    for i := 0 to |Prefixes|
      invariant db.Consistent()
      invariant AfterMessage(d0, topic, doc, now)
             == AfterTopics(db.State(), Prefixes[i..], topic, doc, now, warnings)
    {
      assert Prefixes[i..][0] == Prefixes[i] && Prefixes[i..][1..] == Prefixes[i + 1..];
      warnings := HandleEntry(db, Prefixes[i], topic, doc, now, warnings);
    }
  }
}
