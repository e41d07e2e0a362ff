/** Topic matching as the ingesters do it: an MQTT topic filter turned into
    a Python regular expression (mqtt_to_sql.py:18-19), `re.compile` of the
    small regex language the sources use, and `re.match`, which anchors at
    the start of the topic only. Beside it, the topic-filter semantics of
    section 4.7.1 of MQTT 3.1.1, which decides what the broker delivers. */
module Topics {
  import opened Basics
  import opened Text

  /** The character class repeated by a capture group: `.` (anything but a
      newline) or `[^/]` (anything but a slash). */
  datatype CharClass = AnyButNewline | AnyButSlash

  /** A literal character, or a greedy capture group `(.*)` / `([^/]*)`. */
  datatype Atom = Lit(c: char) | Group(cls: CharClass)

  predicate InClass(c: char, k: CharClass)
  {
    match k
    case AnyButNewline => c != '\n'
    case AnyButSlash => c != '/'
  }

  /** The regex text a topic filter becomes:
      `filter.replace('#', r'(.*)').replace('+', r'([^/]*)')`. */
  function FilterToRegex(filter: string): string
  {
    ReplaceChar(ReplaceChar(filter, '#', "(.*)"), '+', "([^/]*)")
  }

  /** Characters with a meaning of their own in a Python regex. */
  const MetaChars := ".^$*+?{}[]\\|()"

  function Lits(s: string): (p: seq<Atom>)
    ensures |p| == |s| && forall i :: 0 <= i < |s| ==> p[i] == Lit(s[i])
  {
    if s == [] then [] else [Lit(s[0])] + Lits(s[1..])
  }

  function Prepend(a: Atom, rest: Option<seq<Atom>>): Option<seq<Atom>>
  {
    match rest
    case None => None
    case Some(p) => Some([a] + p)
  }

  /** `re.compile` for the regexes the sources use: literal characters and
      the two capture groups. Anything else is outside the modelled
      language and gives None. */
  function Compile(re: string): Option<seq<Atom>>
  {
    if re == [] then Some([])
    else if "(.*)" <= re then Prepend(Group(AnyButNewline), Compile(re[4..]))
    else if "([^/]*)" <= re then Prepend(Group(AnyButSlash), Compile(re[7..]))
    else if re[0] in MetaChars then None
    else Prepend(Lit(re[0]), Compile(re[1..]))
  }

  predicate PlainText(s: string)
  {
    forall i :: 0 <= i < |s| ==> s[i] !in MetaChars
  }

  /** A regex that is plain text followed by `rest` compiles to the
      literals of that text followed by what `rest` compiles to. */
  lemma {:induction false} CompilePlain(text: string, rest: string)
    requires PlainText(text)
    ensures Compile(text + rest) ==
      match Compile(rest)
      case None => None
      case Some(p) => Some(Lits(text) + p)
  {
    if text == [] {
      assert text + rest == rest;
      assert Lits(text) == [];
      match Compile(rest) {
        case None =>
        case Some(p) => assert Lits(text) + p == p;
      }
    } else {
      var re := text + rest;
      assert re[0] == text[0] && re[1..] == text[1..] + rest;
      assert !("(.*)" <= re) && !("([^/]*)" <= re) by {
        assert re[0] !in MetaChars;
      }
      assert Compile(re) == Prepend(Lit(text[0]), Compile(text[1..] + rest));
      CompilePlain(text[1..], rest);
      assert Lits(text) == [Lit(text[0])] + Lits(text[1..]);
      match Compile(rest) {
        case None =>
        case Some(p) =>
          assert Lits(text) + p == [Lit(text[0])] + (Lits(text[1..]) + p);
      }
    }
  }

  /** A regex `<plain text>(.*)` or `<plain text>([^/]*)` compiles to the
      literals followed by one capture group. */
  lemma PrefixGroupCompiles(text: string, k: CharClass)
    requires PlainText(text)
    ensures Compile(text + (if k == AnyButNewline then "(.*)" else "([^/]*)"))
            == Some(Lits(text) + [Group(k)])
  {
    var g := if k == AnyButNewline then "(.*)" else "([^/]*)";
    CompilePlain(text, g);
    if k == AnyButNewline {
      assert "(.*)" <= g && g[4..] == [];
      assert Compile(g[4..]) == Some([]);
      assert Compile(g) == Prepend(Group(AnyButNewline), Compile(g[4..]));
    } else {
      assert g[1] == '[';
      assert !("(.*)" <= g) && "([^/]*)" <= g && g[7..] == [];
      assert Compile(g[7..]) == Some([]);
      assert Compile(g) == Prepend(Group(AnyButSlash), Compile(g[7..]));
    }
    assert [Group(k)] + [] == [Group(k)];
    assert Compile(g) == Some([Group(k)]);
  }

  /** The length of the longest prefix of `s` whose characters are all in
      class `k`: how far a greedy `(.*)` or `([^/]*)` reaches. */
  function Run(k: CharClass, s: string): (n: nat)
    ensures n <= |s|
    ensures forall i :: 0 <= i < n ==> InClass(s[i], k)
    ensures n == |s| || !InClass(s[n], k)
  {
    if s == [] || !InClass(s[0], k) then 0 else 1 + Run(k, s[1..])
  }

  /** The outcome of `re.match`: how many characters matched (`match[0]`
      is that prefix of the topic) and the captured groups in order. */
  datatype RegexMatch = RegexMatch(len: nat, groups: seq<string>)

  function Shift(m: Option<RegexMatch>, n: nat, g: seq<string>): Option<RegexMatch>
  {
    match m
    case None => None
    case Some(RegexMatch(len, gs)) => Some(RegexMatch(len + n, g + gs))
  }

  /** `re.match(p, s)`: the first match at the start of `s` in Python's
      backtracking order, where a greedy group first tries its longest
      reach and gives back one character at a time. */
  function MatchAt(p: seq<Atom>, s: string): (m: Option<RegexMatch>)
    ensures m.Some? ==> m.value.len <= |s|
    decreases |p|, |s| + 1
  {
    if p == [] then Some(RegexMatch(0, []))
    else
      match p[0]
      case Lit(c) =>
        if s != [] && s[0] == c then Shift(MatchAt(p[1..], s[1..]), 1, []) else None
      case Group(k) => TryRun(p[1..], s, k, Run(k, s))
  }

  /** The greedy group of class `k` tries `n`, `n - 1`, ..., 0 characters
      until the rest of the pattern matches. */
  function TryRun(rest: seq<Atom>, s: string, k: CharClass, n: nat): (m: Option<RegexMatch>)
    requires n <= |s|
    ensures m.Some? ==> m.value.len <= |s|
    decreases |rest| + 1, n
  {
    match MatchAt(rest, s[n..])
    case Some(RegexMatch(len, gs)) => Some(RegexMatch(n + len, [s[..n]] + gs))
    case None => if n == 0 then None else TryRun(rest, s, k, n - 1)
  }

  lemma GroupAlone(k: CharClass, s: string)
    ensures MatchAt([Group(k)], s) == Some(RegexMatch(Run(k, s), [s[..Run(k, s)]]))
  {
    var n := Run(k, s);
    assert [Group(k)][1..] == [];
    assert MatchAt([], s[n..]) == Some(RegexMatch(0, []));
    assert TryRun([], s, k, n) == Some(RegexMatch(n + 0, [s[..n]] + []));
    assert [s[..n]] + [] == [s[..n]];
    var q := [Group(k)];
    assert q[0] == Group(k) && q[1..] == [];
    assert MatchAt(q, s) == TryRun(q[1..], s, k, n);
  }

  lemma LitStep(c: char, p: seq<Atom>, s: string)
    ensures MatchAt([Lit(c)] + p, s) ==
      if s != [] && s[0] == c then Shift(MatchAt(p, s[1..]), 1, []) else None
  {
    var q := [Lit(c)] + p;
    assert q != [] && q[0] == Lit(c) && q[1..] == p;
    if s != [] && s[0] == c {
      assert MatchAt(q, s) == Shift(MatchAt(q[1..], s[1..]), 1, []);
    } else {
      assert MatchAt(q, s) == None;
    }
  }

  /** What `re.match` of `<prefix>(group)` gives on `s`. */
  function PrefixGroupMatch(prefix: string, k: CharClass, s: string): Option<RegexMatch>
  {
    if prefix <= s then
      var n := Run(k, s[|prefix|..]);
      Some(RegexMatch(|prefix| + n, [s[|prefix|..][..n]]))
    else None
  }

  /** `re.match` of `<prefix>(group)` against a topic: it succeeds exactly
      when the topic starts with the prefix, and the group then captures
      the longest run of class `k` after the prefix. Nothing after that run
      needs to match: `re.match` is anchored at the start only. */
  lemma {:induction false} MatchPrefixGroup(prefix: string, k: CharClass, s: string)
    ensures MatchAt(Lits(prefix) + [Group(k)], s) == PrefixGroupMatch(prefix, k, s)
  {
    if prefix == [] {
      assert Lits(prefix) + [Group(k)] == [Group(k)];
      assert s[0..] == s;
      GroupAlone(k, s);
    } else {
      var rest := Lits(prefix[1..]) + [Group(k)];
      assert Lits(prefix) + [Group(k)] == [Lit(prefix[0])] + rest;
      LitStep(prefix[0], rest, s);
      if s != [] && s[0] == prefix[0] {
        MatchPrefixGroup(prefix[1..], k, s[1..]);
        PrefixGroupMatchStep(prefix, k, s);
      }
    }
  }

  lemma PrefixGroupMatchStep(prefix: string, k: CharClass, s: string)
    requires prefix != [] && s != [] && s[0] == prefix[0]
    ensures PrefixGroupMatch(prefix, k, s) == Shift(PrefixGroupMatch(prefix[1..], k, s[1..]), 1, [])
  {
    PrefixStep(prefix, s);
    if prefix <= s {
      var n := Run(k, s[|prefix|..]);
      var gs: seq<string> := [s[|prefix|..][..n]];
      assert [] + gs == gs;
    }
  }

  lemma PrefixStep(prefix: string, s: string)
    requires prefix != [] && s != [] && s[0] == prefix[0]
    ensures (prefix <= s) == (prefix[1..] <= s[1..])
    ensures prefix <= s ==> s[1..][|prefix| - 1..] == s[|prefix|..]
  {
  }

  /** Whether topic filter `f` matches topic name `t` under section 4.7.1
      of MQTT 3.1.1, for well-formed filters (wildcards fill a whole level,
      `#` only last): `+` matches exactly one level, `#` any number of
      levels including the parent level itself. Topics starting with `$`
      are not treated specially here. */
  predicate FilterMatches(f: string, t: string)
    decreases |f|
  {
    if f == [] then t == []
    else if f == "#" then true
    else if f == "/#" && t == [] then true
    else if f[0] == '+' then FilterMatches(f[1..], t[Run(AnyButSlash, t)..])
    else t != [] && t[0] == f[0] && FilterMatches(f[1..], t[1..])
  }

  /** The examples of the topic-filter rules: `a/+` matches `a/b` but not
      `a/b/c`; `a/#` matches `a`, `a/b` and `a/b/c`. */
  lemma FilterExamples()
    ensures FilterMatches("a/+", "a/b") && !FilterMatches("a/+", "a/b/c")
    ensures FilterMatches("a/#", "a") && FilterMatches("a/#", "a/b")
    ensures FilterMatches("a/#", "a/b/c")
  {
    assert "a/b"[1..] == "/b" && "/b"[1..] == "b";
    assert Run(AnyButSlash, "b") == 1;
    assert "a/b/c"[1..] == "/b/c" && "/b/c"[1..] == "b/c";
    assert Run(AnyButSlash, "b/c") == 1 && "b/c"[1..] == "/c";
    assert "a"[1..] == [];
  }

  /** A filter `<prefix>+` with a wildcard-free prefix matches exactly the
      topics that start with the prefix and have no `/` after it. */
  lemma {:induction false} PlusFilterMatches(prefix: string, t: string)
    requires forall i :: 0 <= i < |prefix| ==> prefix[i] != '+' && prefix[i] != '#'
    ensures FilterMatches(prefix + "+", t) <==>
            prefix <= t && '/' !in t[|prefix|..]
  {
    var f := prefix + "+";
    if prefix == [] {
      assert f == "+" && f[1..] == [];
      var n := Run(AnyButSlash, t);
      assert t[n..] == [] <==> n == |t|;
      assert '/' in t ==> n < |t| by {
        if '/' in t {
          var j :| 0 <= j < |t| && t[j] == '/';
          assert !InClass(t[j], AnyButSlash);
        }
      }
      assert t[0..] == t;
    } else {
      assert f[0] == prefix[0] && f[1..] == prefix[1..] + "+";
      assert f != "#" && f != "/#";
      if t != [] && t[0] == prefix[0] {
        PlusFilterMatches(prefix[1..], t[1..]);
        assert (prefix <= t) == (prefix[1..] <= t[1..]);
        assert prefix <= t ==> t[1..][|prefix| - 1..] == t[|prefix|..];
      }
    }
  }

  /** For every topic the broker delivers on a `<prefix>+` subscription,
      `re.match` of `<prefix>([^/]*)` matches the whole topic and the group
      is the one level the `+` stood for. */
  lemma PlusRegexExactOnDelivered(prefix: string, t: string)
    requires forall i :: 0 <= i < |prefix| ==> prefix[i] != '+' && prefix[i] != '#'
    requires FilterMatches(prefix + "+", t)
    ensures prefix <= t
    ensures MatchAt(Lits(prefix) + [Group(AnyButSlash)], t) ==
            Some(RegexMatch(|t|, [t[|prefix|..]]))
  {
    PlusFilterMatches(prefix, t);
    MatchPrefixGroup(prefix, AnyButSlash, t);
    var rest := t[|prefix|..];
    var n := Run(AnyButSlash, rest);
    assert n == |rest|;
    assert rest[..n] == rest;
  }

  // ---------------------------------------------------------------------
  // The `<prefix>(.*)` regexes whose whole match is the node name

  /** What `re.compile` makes of `<prefix>(.*)` (see `PrefixGroupCompiles`). */
  function Pattern(prefix: string): seq<Atom>
  {
    Lits(prefix) + [Group(AnyButNewline)]
  }

  /** `match[0]`: the text the whole regex matched, or None when it does
      not match. */
  function MatchedText(p: seq<Atom>, topic: string): Option<string>
  {
    match MatchAt(p, topic)
    case None => None
    case Some(m) => Some(topic[..m.len])
  }

  /** The node name a topic under `prefix` gets: the topic up to its first
      newline, since `.` stops there. */
  function NodeName(prefix: string, topic: string): string
    requires prefix <= topic
  {
    topic[..|prefix| + Run(AnyButNewline, topic[|prefix|..])]
  }

  lemma NodeNameWholeTopic(prefix: string, topic: string)
    requires prefix <= topic && '\n' !in topic
    ensures NodeName(prefix, topic) == topic
  {
  }

  lemma MatchedTextIsNode(prefix: string, topic: string)
    ensures MatchedText(Pattern(prefix), topic) ==
            if prefix <= topic then Some(NodeName(prefix, topic)) else None
  {
    MatchPrefixGroup(prefix, AnyButNewline, topic);
  }
}
