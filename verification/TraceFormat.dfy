/** The trace's line format: lines written in it are read back as what they say. */
module TraceFormat {
  import opened Octets
  import opened JsonText
  import opened JsonReader
  import opened Messages
  import opened Trace

  function JoinWith(parts: seq<Bytes>, sep: Byte): Bytes
    requires parts != []
  {
    if |parts| == 1 then parts[0] else parts[0] + [sep] + JoinWith(parts[1..], sep)
  }

  lemma {:induction false} SplitPlain(s: Bytes, sep: Byte)
    requires sep !in s
    ensures Split(s, sep) == [s]
  {
    if s != [] {
      SplitPlain(s[1..], sep);
      assert s == [s[0]] + s[1..];
    }
  }

  lemma {:induction false} SplitFirst(s: Bytes, sep: Byte, rest: Bytes)
    requires sep !in s
    ensures Split(s + [sep] + rest, sep) == [s] + Split(rest, sep)
  {
    var t := s + [sep] + rest;
    if s == [] {
      assert t[1..] == rest;
    } else {
      SplitFirst(s[1..], sep, rest);
      assert t[1..] == s[1..] + [sep] + rest;
      assert s == [s[0]] + s[1..];
    }
  }

  /** Splitting undoes joining, for parts without the separator. */
  lemma {:induction false} SplitJoin(parts: seq<Bytes>, sep: Byte)
    requires parts != [] && forall i :: 0 <= i < |parts| ==> sep !in parts[i]
    ensures Split(JoinWith(parts, sep), sep) == parts
    decreases |parts|
  {
    if |parts| == 1 {
      SplitPlain(parts[0], sep);
    } else {
      SplitFirst(parts[0], sep, JoinWith(parts[1..], sep));
      SplitJoin(parts[1..], sep);
      assert parts == [parts[0]] + parts[1..];
    }
  }

  /** A pattern is found at its first occurrence. */
  lemma {:induction false} IndexAfter(s: Bytes, pattern: Bytes, rest: Bytes)
    requires pattern != [] && pattern[0] !in s
    ensures IndexOf(s + pattern + rest, pattern) == Some(|s|)
  {
    var t := s + pattern + rest;
    if s == [] {
      assert t[..|pattern|] == pattern;
    } else {
      assert t[0] == s[0] && s[0] in s;
      assert !(pattern <= t);
      IndexAfter(s[1..], pattern, rest);
      assert t[1..] == s[1..] + pattern + rest;
    }
  }

  lemma LabelledValue(tag: Bytes, value: Bytes)
    requires ':' !in tag
    ensures AgentOf(tag + ":" + value) == value && ValueOf(tag + ":" + value) == value
  {
    IndexAfter(tag, ":", value);
  }

  lemma DigitsPlain(n: nat, b: Byte)
    requires !IsDigit(b)
    ensures b !in Digits(n)
  {
    DigitsRoundTrip(n);
  }

  /** A pattern of two bytes is found where both first match. */
  lemma {:induction false} IndexPair(s: Bytes, a: Byte, b: Byte, k: nat)
    requires k + 2 <= |s| && s[k] == a && s[k + 1] == b
    requires forall j :: 0 <= j < k ==> s[j] != a || s[j + 1] != b
    ensures IndexOf(s, [a, b]) == Some(k)
    decreases k
  {
    if k == 0 {
      assert s[..2] == [a, b];
    } else {
      assert !([a, b] <= s) by { assert s[0] != [a, b][0] || s[1] != [a, b][1]; }
      IndexPair(s[1..], a, b, k - 1);
    }
  }

  /** The tag holds an 'm' too, but no "ms". */
  lemma TimeShape(d: Bytes)
    requires AllDigits(d)
    ensures var s := "time:" + d + "ms";
      IndexOf(s, "ms") == Some(5 + |d|) && s[5..5 + |d|] == d
  {
    var s := "time:" + d + "ms";
    assert s[5 + |d|] == 'm' && s[6 + |d|] == 's';
    assert s[2] == 'm' && s[3] == 'e';
    forall j | 0 <= j < 5 + |d| ensures s[j] != 'm' || s[j + 1] != 's' {
      if j >= 5 { assert s[j] == d[j - 5]; }
    }
    IndexPair(s, 'm', 's', 5 + |d|);
    assert "ms" == ['m', 's'];
  }

  lemma TimeBack(t: nat)
    requires t < 0x1_0000_0000
    ensures TimeOf("time:" + Digits(t) + "ms") == Ok(t)
  {
    DigitsRoundTrip(t);
    TimeShape(Digits(t));
  }

  /** A tick line is a time on its own. */
  lemma LexTickLine(t: nat)
    requires t < 0x1_0000_0000
    ensures Lex(Digits(t)) == Ok(TickLine(t))
  {
    DigitsRoundTrip(t);
    DigitsPlain(t, ';');
    SplitPlain(Digits(t), ';');
  }

  function KindName(k: Kind): Bytes {
    match k
    case ADD => "add_agent"
    case UPDATE => "update_agent"
    case MULTICAST => "multicast"
  }

  lemma KindBack(k: Kind)
    ensures KindOf(KindName(k)) == k && ';' !in KindName(k)
  {
    assert |"add_agent"| == 9 && |"update_agent"| == 12 && |"multicast"| == 9;
    assert "add_agent"[0] == 'a' && "multicast"[0] == 'm';
  }

  function DataTokens(k: Kind, t: nat, tag: Bytes, agent: Bytes, more: seq<Bytes>): seq<Bytes> {
    [KindName(k), "time:" + Digits(t) + "ms", tag + ":" + agent] + more
  }

  /** A data line names its kind, its time, its agent and then what else it carries. */
  lemma LexDataLine(k: Kind, t: nat, tag: Bytes, agent: Bytes, more: seq<Bytes>)
    requires t < 0x1_0000_0000
    requires ';' !in tag && ':' !in tag && ';' !in agent && forall i :: 0 <= i < |more| ==> ';' !in more[i]
    ensures Lex(JoinWith(DataTokens(k, t, tag, agent, more), ';'))
      == Ok(DataLine(k, t, agent, DataTokens(k, t, tag, agent, more)))
  {
    var tokens := DataTokens(k, t, tag, agent, more);
    KindBack(k);
    TimeToken(t);
    forall i | 0 <= i < |tokens| ensures ';' !in tokens[i] {
      if i >= 3 { assert tokens[i] == more[i - 3]; }
    }
    SplitJoin(tokens, ';');
    LabelledValue(tag, agent);
  }

  lemma TimeToken(t: nat)
    requires t < 0x1_0000_0000
    ensures TimeOf("time:" + Digits(t) + "ms") == Ok(t) && ';' !in "time:" + Digits(t) + "ms"
  {
    TimeBack(t);
    DigitsPlain(t, ';');
  }

  lemma {:induction false} NonEmptyAll(ids: seq<Bytes>)
    requires forall i :: 0 <= i < |ids| ==> ids[i] != []
    ensures NonEmpty(ids) == ids
  {
    if ids != [] {
      NonEmptyAll(ids[1..]);
      assert ids == [ids[0]] + ids[1..];
    }
  }

  /** A multicast line's recipients and data are read back as written. */
  lemma CastBack(l: Line, list: Bytes, receivers: seq<Bytes>, data: Bytes)
    requires l.DataLine? && |l.tokens| >= 5 && receivers != []
    requires l.tokens[3] == list + ":" + JoinWith(receivers, ',') && l.tokens[4] == data
    requires ':' !in list
    requires forall i :: 0 <= i < |receivers| ==> receivers[i] != [] && ',' !in receivers[i]
    ensures CastOf(l) == Ok(TickMulticast(l.agent, receivers, data))
  {
    LabelledValue(list, JoinWith(receivers, ','));
    SplitJoin(receivers, ',');
    NonEmptyAll(receivers);
  }

  // ---------- whole lines ----------

  /** A line of additions makes the agent known while there is room, and adds it to the tick if it is known. */
  lemma AddLineBack(cfg: Config, s: TraceState, t: nat, tag: Bytes, agent: Bytes, more: seq<Bytes>)
    requires t < 0x1_0000_0000
    requires ';' !in tag && ':' !in tag && ';' !in agent && forall i :: 0 <= i < |more| ==> ';' !in more[i]
    ensures var r := OneLine(cfg, s, JoinWith(DataTokens(ADD, t, tag, agent, more), ';'));
      && r.Ok?
      && r.value.agentLimit == s.agentLimit + (if |s.agentLimit| < cfg.maxAgents then {agent} else {})
      && (agent in r.value.agentLimit ==>
        && r.value.agentsList == s.agentsList + {agent}
        && r.value.ticks == s.ticks[t := TickAt(s, t).(addAgent := TickAt(s, t).addAgent + [agent])])
      && (agent !in r.value.agentLimit ==> r.value.agentsList == s.agentsList && r.value.ticks == s.ticks)
  {
    LexDataLine(ADD, t, tag, agent, more);
    assert s.agentLimit + {} == s.agentLimit;
  }

  function UpdateTokens(t: nat, tag: Bytes, agent: Bytes, tagX: Bytes, x: Bytes, tagY: Bytes, y: Bytes): seq<Bytes> {
    DataTokens(UPDATE, t, tag, agent, [tagX + ":" + x, tagY + ":" + y])
  }

  lemma UpdateLexed(t: nat, tag: Bytes, agent: Bytes, tagX: Bytes, x: Bytes, tagY: Bytes, y: Bytes)
    requires t < 0x1_0000_0000
    requires ';' !in tag && ':' !in tag && ';' !in agent
    requires ';' !in tagX && ':' !in tagX && ';' !in x && ';' !in tagY && ':' !in tagY && ';' !in y
    ensures var tokens := UpdateTokens(t, tag, agent, tagX, x, tagY, y);
      && Lex(JoinWith(tokens, ';')) == Ok(DataLine(UPDATE, t, agent, tokens))
      && |tokens| == 5 && tokens[3] == tagX + ":" + x && tokens[4] == tagY + ":" + y
  {
    LexDataLine(UPDATE, t, tag, agent, [tagX + ":" + x, tagY + ":" + y]);
  }

  /** A line of updates puts its two numbers, the first as x and the second as y, under its agent and
      time; it raises exactly when one of them is no number. It is skipped for an agent that is not
      known, and altogether when updates are switched off. */
  lemma UpdateLineBack(cfg: Config, s: TraceState, t: nat, tag: Bytes, agent: Bytes,
                       tagX: Bytes, sx: Bytes, tagY: Bytes, sy: Bytes)
    requires t < 0x1_0000_0000
    requires ';' !in tag && ':' !in tag && ';' !in agent
    requires ';' !in tagX && ':' !in tagX && ';' !in sx && ';' !in tagY && ':' !in tagY && ';' !in sy
    ensures var r := OneLine(cfg, s, JoinWith(UpdateTokens(t, tag, agent, tagX, sx, tagY, sy), ';'));
      var x, y, tick := cfg.toDouble(sx), cfg.toDouble(sy), TickAt(s, t);
      if cfg.disableLocationUpdate || agent !in s.agentLimit then r == Ok(s)
      else if x.None? || y.None? then r == Raised(BadCast)
      else r == Ok(s.(ticks := s.ticks[t :=
        tick.(updateAgent := tick.updateAgent[agent := DPoint(x.value, y.value)])]))
  {
    UpdateLexed(t, tag, agent, tagX, sx, tagY, sy);
    LabelledValue(tagX, sx);
    LabelledValue(tagY, sy);
  }

  function CastTokens(t: nat, tag: Bytes, agent: Bytes, list: Bytes, receivers: seq<Bytes>, data: Bytes): seq<Bytes>
    requires receivers != []
  {
    DataTokens(MULTICAST, t, tag, agent, [list + ":" + JoinWith(receivers, ','), data])
  }

  lemma {:induction false} JoinWithout(parts: seq<Bytes>, sep: Byte, b: Byte)
    requires parts != [] && b != sep && forall i :: 0 <= i < |parts| ==> b !in parts[i]
    ensures b !in JoinWith(parts, sep)
    decreases |parts|
  {
    if |parts| > 1 { JoinWithout(parts[1..], sep, b); }
  }

  /** The recipients that are named, in order; empty ones do not count. */
  function Named(ids: seq<Bytes>): seq<Bytes> {
    if ids == [] then []
    else if ids[|ids| - 1] == [] then Named(ids[..|ids| - 1])
    else Named(ids[..|ids| - 1]) + [ids[|ids| - 1]]
  }

  lemma {:induction false} NonEmptySnoc(ids: seq<Bytes>, id: Bytes)
    ensures NonEmpty(ids + [id]) == NonEmpty(ids) + if id == [] then [] else [id]
  {
    if ids == [] {
      assert ids + [id] == [id] && [id][1..] == [];
    } else {
      assert (ids + [id])[1..] == ids[1..] + [id];
      NonEmptySnoc(ids[1..], id);
    }
  }

  lemma {:induction false} NonEmptyNamed(ids: seq<Bytes>)
    ensures NonEmpty(ids) == Named(ids)
  {
    if ids != [] {
      var init, last := ids[..|ids| - 1], ids[|ids| - 1];
      assert ids == init + [last];
      NonEmptyNamed(init);
      NonEmptySnoc(init, last);
      assert NonEmpty(init) + [] == NonEmpty(init);
    }
  }

  /** A line of multicasts adds one, with its agent as the sender, its named recipients and its data,
      to the tick. It is skipped for an agent that is not known, and altogether when multicasts are
      switched off. */
  lemma CastLineBack(cfg: Config, s: TraceState, t: nat, tag: Bytes, agent: Bytes,
                     list: Bytes, receivers: seq<Bytes>, data: Bytes)
    requires t < 0x1_0000_0000 && receivers != []
    requires ';' !in tag && ':' !in tag && ';' !in agent && ';' !in list && ':' !in list && ';' !in data
    requires forall i :: 0 <= i < |receivers| ==> ';' !in receivers[i] && ',' !in receivers[i]
    ensures var r := OneLine(cfg, s, JoinWith(CastTokens(t, tag, agent, list, receivers, data), ';'));
      var tick := TickAt(s, t);
      if cfg.disableCommunication || agent !in s.agentLimit then r == Ok(s)
      else r == Ok(s.(ticks := s.ticks[t :=
        tick.(multicast := tick.multicast + [TickMulticast(agent, Named(receivers), data)])]))
  {
    CastLexed(t, tag, agent, list, receivers, data);
    var tokens := CastTokens(t, tag, agent, list, receivers, data);
    var l := DataLine(MULTICAST, t, agent, tokens);
    CastNamed(l, list, receivers, data);
    CastApplies(cfg, s, JoinWith(tokens, ';'), l, TickMulticast(agent, Named(receivers), data));
  }

  lemma CastApplies(cfg: Config, s: TraceState, line: Bytes, l: Line, m: TickMulticast)
    requires Lex(line) == Ok(l) && l.DataLine? && l.kind == MULTICAST && CastOf(l) == Ok(m)
    ensures var tick := TickAt(s, l.time);
      OneLine(cfg, s, line) == Ok(
        if cfg.disableCommunication || l.agent !in s.agentLimit then s
        else s.(ticks := s.ticks[l.time := tick.(multicast := tick.multicast + [m])]))
  {
  }

  lemma CastLexed(t: nat, tag: Bytes, agent: Bytes, list: Bytes, receivers: seq<Bytes>, data: Bytes)
    requires t < 0x1_0000_0000 && receivers != []
    requires ';' !in tag && ':' !in tag && ';' !in agent && ';' !in list && ';' !in data
    requires forall i :: 0 <= i < |receivers| ==> ';' !in receivers[i]
    ensures var tokens := CastTokens(t, tag, agent, list, receivers, data);
      && Lex(JoinWith(tokens, ';')) == Ok(DataLine(MULTICAST, t, agent, tokens))
      && |tokens| == 5 && tokens[3] == list + ":" + JoinWith(receivers, ',') && tokens[4] == data
  {
    JoinWithout(receivers, ',', ';');
    LexDataLine(MULTICAST, t, tag, agent, [list + ":" + JoinWith(receivers, ','), data]);
  }

  lemma CastNamed(l: Line, list: Bytes, receivers: seq<Bytes>, data: Bytes)
    requires l.DataLine? && |l.tokens| >= 5 && receivers != [] && ':' !in list
    requires l.tokens[3] == list + ":" + JoinWith(receivers, ',') && l.tokens[4] == data
    requires forall i :: 0 <= i < |receivers| ==> ',' !in receivers[i]
    ensures CastOf(l) == Ok(TickMulticast(l.agent, Named(receivers), data))
  {
    LabelledValue(list, JoinWith(receivers, ','));
    SplitJoin(receivers, ',');
    NonEmptyNamed(receivers);
  }

  // ---------- times ----------

  /** A minus sign wraps a time around 2^32, and a plus sign changes nothing. */
  lemma SignedTime(n: nat)
    requires n < 0x1_0000_0000
    ensures ToUnsigned("+" + Digits(n)) == Ok(n)
    ensures var r := ToUnsigned("-" + Digits(n));
      r.Ok? && r.value < 0x1_0000_0000 && (r.value + n) % 0x1_0000_0000 == 0
  {
    DigitsRoundTrip(n);
    Signed(Digits(n), n);
    Wraps(n, 0x1_0000_0000);
  }

  lemma Signed(t: Bytes, n: nat)
    requires ToMagnitude(t) == Ok(n)
    ensures ToUnsigned("+" + t) == Ok(n) && ToUnsigned("-" + t) == Ok((0x1_0000_0000 - n) % 0x1_0000_0000)
  {
    assert ("+" + t)[1..] == t && ("-" + t)[1..] == t;
  }

  lemma Wraps(n: nat, m: nat)
    requires n < m
    ensures (m - n) % m < m && ((m - n) % m + n) % m == 0
  {
    if n == 0 {
      assert (m - n) % m == 0;
    } else {
      assert (m - n) % m == m - n;
    }
  }

  /** A time that is empty, too large, or holds anything but digits behind its sign, raises. */
  lemma BadTime(t: Bytes)
    requires t == [] || (t[0] != '-' && t[0] != '+')
    ensures t == [] || !AllDigits(t) ==>
      ToUnsigned(t) == ToUnsigned("-" + t) == ToUnsigned("+" + t) == Raised(BadCast)
    ensures AllDigits(t) && DigitsValue(t) >= 0x1_0000_0000 ==>
      ToUnsigned(t) == ToUnsigned("-" + t) == ToUnsigned("+" + t) == Raised(BadCast)
  {
    assert ("+" + t)[1..] == t && ("-" + t)[1..] == t;
  }

  lemma {:induction false} NoByte(s: Bytes, b: Byte)
    requires b !in s
    ensures IndexOf(s, [b]).None?
  {
    if s != [] {
      assert s[0] in s;
      NoByte(s[1..], b);
    }
  }

  /** Without its unit a time reaches to the end of its field, whatever its five bytes in front; a
      field of fewer than five bytes is read past its end. */
  lemma TimeWithoutUnit(front: Bytes, n: nat)
    requires |front| == 5 && n < 0x1_0000_0000
    ensures TimeOf(front + Digits(n)) == Ok(n)
    ensures forall t :: |t| < 5 ==> TimeOf(t) == Raised(OutOfBounds)
  {
    var t := front + Digits(n);
    DigitsRoundTrip(n);
    assert t[5..] == Digits(n) && "ms" == ['m', 's'];
    assert forall i :: 5 <= i < |t| ==> IsDigit(t[i]);
    if IndexOf(t, "ms").Some? {
      var k := IndexOf(t, "ms").value;
      assert t[k] == t[k..k + 2][0] == 'm';
    }
  }

  /** Without a colon, an agent is its whole field, and a value all but the last byte of it. */
  lemma FieldWithoutColon(t: Bytes)
    requires ':' !in t
    ensures AgentOf(t) == t
    ensures t == [] ==> ValueOf(t) == []
    ensures t != [] ==> ValueOf(t) + [t[|t| - 1]] == t
  {
    NoByte(t, ':');
    assert ":" == [':'];
  }

  /** A line of any other word is taken for a multicast. */
  lemma OtherWord(word: Bytes)
    requires word != KindName(ADD) && word != KindName(UPDATE)
    ensures KindOf(word) == MULTICAST
  {
  }

  /** Too few fields are read past the end: a line of two has no agent, and an update or a multicast
      of a known agent needs five. */
  lemma ShortLines(cfg: Config, s: TraceState, line: Bytes)
    requires Lex(line).Ok? && Lex(line).value.DataLine? && |Lex(line).value.tokens| < 5
    requires Lex(line).value.agent in s.agentLimit
    ensures Lex(line).value.kind == UPDATE && !cfg.disableLocationUpdate ==>
      OneLine(cfg, s, line) == Raised(OutOfBounds)
    ensures Lex(line).value.kind == MULTICAST && !cfg.disableCommunication ==>
      OneLine(cfg, s, line) == Raised(OutOfBounds)
  {
  }

  lemma TwoFields(word: Bytes, t: nat)
    requires ';' !in word && t < 0x1_0000_0000
    ensures Lex(word + ";" + ("time:" + Digits(t) + "ms")) == Raised(OutOfBounds)
  {
    var time := "time:" + Digits(t) + "ms";
    TimeToken(t);
    SplitFirst(word, ';', time);
    SplitPlain(time, ';');
    assert word + [';'] + time == word + ";" + time;
  }
}
