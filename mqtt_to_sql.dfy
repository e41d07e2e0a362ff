/** The older MQTT-to-SQLite ingester, mqtt_to_sql.py: one subscription
    filter `zigbee2mqtt/+`, turned into the regex it matches topics with by
    replacing `#` and `+`, and a handler that takes the node name from the
    regex's first group, that is WITHOUT the `zigbee2mqtt/` prefix. */
module MqttToSql {
  import opened Basics
  import opened Text
  import opened Payload
  import opened Topics
  import opened SqlIngest

  const TopicPrefix := "zigbee2mqtt/"

  /** `TOPIC_MATCH`. */
  const TopicMatch := TopicPrefix + "+"

  /** `ReplaceChar` distributes over concatenation. */
  lemma {:induction false} ReplaceConcat(a: string, b: string, c: char, r: string)
    ensures ReplaceChar(a + b, c, r) == ReplaceChar(a, c, r) + ReplaceChar(b, c, r)
    decreases |a|
  {
    if a == [] {
      assert a + b == b;
    } else {
      assert (a + b)[0] == a[0] && (a + b)[1..] == a[1..] + b;
      ReplaceConcat(a[1..], b, c, r);
    }
  }

  /** A filter `<prefix>+` whose prefix holds no wildcard becomes the regex
      `<prefix>([^/]*)`, which compiles to the prefix's literals and one
      group that stops at a slash. */
  lemma {:induction false} PlusFilterRegex(prefix: string)
    requires '#' !in prefix && '+' !in prefix && PlainText(prefix)
    ensures FilterToRegex(prefix + "+") == prefix + "([^/]*)"
    ensures Compile(FilterToRegex(prefix + "+")) == Some(Lits(prefix) + [Group(AnyButSlash)])
  {
    ReplaceConcat(prefix, "+", '#', "(.*)");
    assert ReplaceChar(prefix + "+", '#', "(.*)") == prefix + "+";
    ReplaceConcat(prefix, "+", '+', "([^/]*)");
    assert ReplaceChar("+", '+', "([^/]*)") == "([^/]*)" + ReplaceChar([], '+', "([^/]*)");
    PrefixGroupCompiles(prefix, AnyButSlash);
  }

  /** What `re.compile` makes of `<prefix>([^/]*)`. */
  function LevelPattern(prefix: string): seq<Atom>
  {
    Lits(prefix) + [Group(AnyButSlash)]
  }

  /** `TOPIC_RE` is what `re.compile` makes of the transformed filter. */
  lemma TopicReCompiled()
    ensures FilterToRegex(TopicMatch) == TopicPrefix + "([^/]*)"
    ensures Compile(FilterToRegex(TopicMatch)) == Some(LevelPattern(TopicPrefix))
  {
    PrefixPlain();
    PlusFilterRegex(TopicPrefix);
  }

  lemma PrefixPlain()
    ensures PlainText(TopicPrefix) && '#' !in TopicPrefix && '+' !in TopicPrefix
    ensures forall j :: 0 <= j < |TopicPrefix| ==> TopicPrefix[j] != '+' && TopicPrefix[j] != '#'
  {
    var p := TopicPrefix;
    forall j | 0 <= j < |p| ensures p[j] !in MetaChars && p[j] != '#' && p[j] != '+' {
      assert 'a' <= p[j] <= 'z' || '0' <= p[j] <= '9' || p[j] == '/';
    }
  }

  /** `on_message` with `TOPIC_RE` built from `prefix`: when the regex
      matches, the handler runs under `match.group(1)`; what it raises
      becomes the warning. */
  function AfterMatch(d: Db, prefix: string, topic: string, doc: Document, now: int): (Db, seq<Fault>)
  {
    match MatchAt(LevelPattern(prefix), topic)
    case None => (d, [])
    case Some(m) => if |m.groups| == 1 then Handle(d, m.groups[0], doc, now) else (d, [])
  }

  function AfterMessage(d: Db, topic: string, doc: Document, now: int): (Db, seq<Fault>)
  {
    AfterMatch(d, TopicPrefix, topic, doc, now)
  }

  /** For every topic the broker delivers on `<prefix>+`, the node name is
      the one topic level after the prefix. */
  lemma DeliveredLevel(d: Db, prefix: string, topic: string, doc: Document, now: int)
    requires forall j :: 0 <= j < |prefix| ==> prefix[j] != '+' && prefix[j] != '#'
    requires FilterMatches(prefix + "+", topic)
    ensures prefix <= topic && '/' !in topic[|prefix|..]
    ensures AfterMatch(d, prefix, topic, doc, now) == Handle(d, topic[|prefix|..], doc, now)
  {
    PlusFilterMatches(prefix, topic);
    PlusRegexExactOnDelivered(prefix, topic);
  }

  /** For every topic the broker delivers on `zigbee2mqtt/+`, the node name
      is the one topic level after `zigbee2mqtt/`. */
  lemma DeliveredNodeIsLevel(d: Db, topic: string, doc: Document, now: int)
    requires FilterMatches(TopicMatch, topic)
    ensures TopicPrefix <= topic && '/' !in topic[|TopicPrefix|..]
    ensures AfterMessage(d, topic, doc, now) == Handle(d, topic[|TopicPrefix|..], doc, now)
  {
    PrefixPlain();
    DeliveredLevel(d, TopicPrefix, topic, doc, now);
  }

  /** The regex is applied with `re.match`, so on a deeper topic it still
      matches and takes the first level below the prefix, although such a
      topic is not delivered on `<prefix>+`. */
  lemma DeeperLevel(d: Db, prefix: string, node: string, more: string, doc: Document, now: int)
    requires forall j :: 0 <= j < |prefix| ==> prefix[j] != '+' && prefix[j] != '#'
    requires '/' !in node
    ensures !FilterMatches(prefix + "+", prefix + node + "/" + more)
    ensures AfterMatch(d, prefix, prefix + node + "/" + more, doc, now) == Handle(d, node, doc, now)
  {
    var t := prefix + node + "/" + more;
    assert t[..|prefix|] == prefix;
    var rest := t[|prefix|..];
    assert rest == node + "/" + more;
    assert rest[|node|] == '/';
    PlusFilterMatches(prefix, t);
    MatchPrefixGroup(prefix, AnyButSlash, t);
    var n := Run(AnyButSlash, rest);
    assert forall i :: 0 <= i < |node| ==> rest[i] == node[i];
    assert n == |node|;
    assert rest[..n] == node;
  }

  /** `zigbee2mqtt/<node>/<more>` is handled under `<node>`, though the
      broker does not deliver it; the only other subscription,
      `$SYS/broker/version`, does not match. */
  lemma DeeperTopicTakesFirstLevel(d: Db, node: string, more: string, doc: Document, now: int)
    requires '/' !in node
    ensures !FilterMatches(TopicMatch, TopicPrefix + node + "/" + more)
    ensures AfterMessage(d, TopicPrefix + node + "/" + more, doc, now) == Handle(d, node, doc, now)
    ensures AfterMessage(d, "$SYS/broker/version", doc, now) == (d, [])
  {
    PrefixPlain();
    DeeperLevel(d, TopicPrefix, node, more, doc, now);
    NoMatchWithoutPrefix(d, TopicPrefix, "$SYS/broker/version", doc, now);
  }

  lemma NoMatchWithoutPrefix(d: Db, prefix: string, topic: string, doc: Document, now: int)
    requires !(prefix <= topic)
    ensures AfterMatch(d, prefix, topic, doc, now) == (d, [])
  {
    MatchPrefixGroup(prefix, AnyButSlash, topic);
  }

  /** The first temperature reading of `zigbee2mqtt/<node>` creates series 1
      named `<node>-t` (for `zigbee2mqtt/kitchen`, `kitchen-t`) and is
      committed at once. */
  lemma FirstReadingStored(node: string, v: Value, now: int)
    requires '/' !in node
    ensures var d := AfterMessage(Opened(map[], 1, []), TopicPrefix + node,
                                  Object(map["temperature" := Number(v)]), now).0;
      d.series == map[node + "-t" := 1]
      && d.committed == [Row(now, 1, v)] && d.pending == []
  {
    var topic := TopicPrefix + node;
    assert topic[|TopicPrefix|..] == node;
    PrefixPlain();
    PlusFilterMatches(TopicPrefix, topic);
    DeliveredNodeIsLevel(Opened(map[], 1, []), topic, Object(map["temperature" := Number(v)]), now);
    FirstFieldStored(node, v, now);
  }

  /** `on_message` for the regex built from `prefix`. */
  method HandleMatch(db: Ingester, prefix: string, topic: string, doc: Document, now: int)
    returns (warnings: seq<Fault>)
    requires db.Consistent()
    modifies db
    ensures db.Consistent()
    ensures (db.State(), warnings) == AfterMatch(old(db.State()), prefix, topic, doc, now)
  {
    warnings := [];
    var m := MatchAt(LevelPattern(prefix), topic);
    if m.Some? && |m.value.groups| == 1 {
      var node := m.value.groups[0];
      var updated, fault := db.HandleJson(node, doc, SqlFields, now);
      if fault.Some? {
        warnings := [fault.value];
      }
    }
  }

  /** `on_message`. */
  method OnMessage(db: Ingester, topic: string, doc: Document, now: int) returns (warnings: seq<Fault>)
    requires db.Consistent()
    modifies db
    ensures db.Consistent()
    ensures (db.State(), warnings) == AfterMessage(old(db.State()), topic, doc, now)
  {
    warnings := HandleMatch(db, TopicPrefix, topic, doc, now);
  }
}
