/** `parse` of both mqtt_1w.py copies: the text a DS18B20 one-wire
    thermometer shows in its `w1_slave` file, already split into lines, read
    as a temperature in millidegrees Celsius. */
module OneWire {
  import opened Basics
  import opened Text

  /** Why `parse` gives no reading. The first three are the RuntimeErrors it
      raises itself; the last two escape from the indexing and from `float()`. */
  datatype ParseError =
    | BadCrc            // "Bad CRC"
    | MissingReading    // "Missing temperature reading"
    | UnableToParse     // "Unable to parse"
    | NoSuchLine        // IndexError: a line is missing
    | NotANumber        // ValueError: the text after `t=` is no number

  datatype Reading = Ok(milli: int) | Fails(error: ParseError)

  /** The raw value the sensor reports while it has no conversion yet:
      85.000 degrees. */
  const PowerOnValue: int := 85000

  /** Python's `s[-3:]`: the last three characters, or all of a shorter
      string. */
  function LastThree(s: string): (t: string)
    ensures |t| == if |s| >= 3 then 3 else |s|
    ensures s == s[..|s| - |t|] + t
  {
    if |s| >= 3 then s[|s| - 3..] else s
  }

  /** The CRC verdict at the end of the first line. */
  function CrcFlag(line: string): string
  {
    LastThree(Strip(line))
  }

  /** `parse(lines)`: the CRC flag of line 0 must be `YES`; the reading is
      the number after the first `t=` of line 1; 85000 is rejected. */
  function Parse(lines: seq<string>): (r: Reading)
    ensures r == Fails(BadCrc) <==> |lines| >= 1 && CrcFlag(lines[0]) != "YES"
    ensures r == Fails(NoSuchLine) <==> |lines| == 0 || (|lines| == 1 && CrcFlag(lines[0]) == "YES")
    ensures r.Ok? ==> r.milli != PowerOnValue
  {
    if |lines| == 0 then Fails(NoSuchLine)
    else if CrcFlag(lines[0]) != "YES" then Fails(BadCrc)
    else if |lines| == 1 then Fails(NoSuchLine)
    else
      var p := Find(lines[1], "t=");
      if p == -1 then Fails(UnableToParse)
      else match ParseInt(lines[1][p + 2..])
        case None => Fails(NotANumber)
        case Some(m) => if m == PowerOnValue then Fails(MissingReading) else Ok(m)
  }

  /** `t = float(temp_string) / 1000.0`: the reading in degrees. */
  function Celsius(milli: int): real
  {
    milli as real / 1000.0
  }

  /** A reading is the number after the first `t=` of the second line, and
      `parse` gives one exactly when the flag is `YES`, the marker is there,
      the rest is a number and that number is not the power-on value. */
  lemma ReadingIff(lines: seq<string>, m: int)
    ensures Parse(lines) == Ok(m) <==>
      && |lines| >= 2 && CrcFlag(lines[0]) == "YES"
      && Find(lines[1], "t=") >= 0
      && ParseInt(lines[1][Find(lines[1], "t=") + 2..]) == Some(m)
      && Celsius(m) != 85.0
  {
  }

  /** Line 1 is looked at only after the flag: a bad flag fails the same way
      whatever follows it. */
  lemma CrcCheckedFirst(first: string, rest: seq<string>, other: seq<string>)
    requires CrcFlag(first) != "YES"
    ensures Parse([first] + rest) == Parse([first] + other) == Fails(BadCrc)
  {
  }

  /** Without a `t=` marker on line 1 the text is rejected as unparsable. */
  lemma NoMarkerUnparsable(lines: seq<string>)
    requires |lines| >= 2 && CrcFlag(lines[0]) == "YES"
    requires forall j :: 0 <= j ==> !OccursAt(lines[1], "t=", j)
    ensures Parse(lines) == Fails(UnableToParse)
  {
  }

  /** `sample_onewire` catches IOError and RuntimeError only: a missing line
      or a non-number ends the whole sweep. */
  predicate CaughtBySampler(e: ParseError)
  {
    e == BadCrc || e == MissingReading || e == UnableToParse
  }

  /** A failure escapes the sampler's handler exactly when there is no
      line at all, or the flag is `YES` and either the second line is
      missing or the text after its `t=` is not an integer. */
  lemma EscapingFailures(lines: seq<string>)
    ensures Parse(lines).Fails? && !CaughtBySampler(Parse(lines).error) <==>
      || |lines| == 0
      || (&& CrcFlag(lines[0]) == "YES"
          && (|| |lines| == 1
              || (&& Find(lines[1], "t=") >= 0
                  && ParseInt(lines[1][Find(lines[1], "t=") + 2..]).None?)))
  {
  }

  // ---------------------------------------------------------------------
  // Round trip over the text the kernel writes

  lemma {:induction false} StripLeftAppend(p: string, q: string)
    requires q != [] && !IsSpace(q[0])
    ensures StripLeft(p + q) == StripLeft(p) + q || StripLeft(p + q) == q
    decreases |p|
  {
    if p == [] {
      assert p + q == q;
    } else if IsSpace(p[0]) {
      assert (p + q)[1..] == p[1..] + q;
      StripLeftAppend(p[1..], q);
    } else {
      assert StripLeft(p + q) == p + q;
    }
  }

  /** Stripping keeps a suffix that starts and ends with a non-space. */
  lemma StripKeepsTail(p: string, q: string)
    requires q != [] && !IsSpace(q[0]) && !IsSpace(q[|q| - 1])
    ensures exists h :: Strip(p + q) == h + q
  {
    StripLeftAppend(p, q);
    var l := StripLeft(p + q);
    assert l[|l| - 1] == q[|q| - 1];
    assert StripRight(l) == l;
    if l == q {
      assert Strip(p + q) == [] + q;
    } else {
      assert Strip(p + q) == StripLeft(p) + q;
    }
  }

  /** A first line ending in `YES` passes the CRC check. */
  lemma YesFlag(head: string)
    ensures CrcFlag(head + "YES") == "YES"
  {
    StripKeepsTail(head, "YES");
    var h :| Strip(head + "YES") == h + "YES";
    assert (h + "YES")[|h + "YES"| - 3..] == "YES";
  }

  /** The first `t=` is right after a head that holds no `=`. */
  lemma MarkerAfterHead(head: string, tail: string)
    requires '=' !in head
    ensures Find(head + "t=" + tail, "t=") == |head|
  {
    var s := head + "t=" + tail;
    assert OccursAt(s, "t=", |head|) by {
      assert s[|head|..|head| + 2] == "t=";
    }
    forall j | 0 <= j < |head| ensures !OccursAt(s, "t=", j) {
      if j + 1 < |head| {
        assert s[j + 1] == head[j + 1];
      } else {
        assert s[j + 1] == 't';
      }
      assert s[j..j + 2][1] == s[j + 1];
    }
    var r := Find(s, "t=");
    assert r != -1 && !(r < |head|) && !(|head| < r);
  }

  /** What the kernel writes for a reading of `m` millidegrees (two lines of
      hex bytes, the first ending in the CRC verdict `YES`, the second in
      `t=<m>`) is read back as `m`, unless `m` is the power-on value. */
  lemma KernelTextRoundTrip(head0: string, head1: string, m: int, more: seq<string>)
    requires '=' !in head1
    ensures Parse([head0 + "YES", head1 + "t=" + Decimal(m)] + more)
         == if m == PowerOnValue then Fails(MissingReading) else Ok(m)
  {
    var lines := [head0 + "YES", head1 + "t=" + Decimal(m)] + more;
    YesFlag(head0);
    MarkerAfterHead(head1, Decimal(m));
    var l1 := lines[1];
    assert l1[|head1| + 2..] == Decimal(m);
    ParseDecimal(m);
  }
}
