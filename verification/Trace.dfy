/** Reading a trace file: one line at a time, into ticks indexed by time, under a cap on agents. */
module Trace {
  import opened Octets
  import opened JsonText
  import opened JsonReader
  import opened Messages

  datatype TickMulticast = TickMulticast(sender: Bytes, receivers: seq<Bytes>, data: Bytes)

  datatype TimeTick = TimeTick(addAgent: seq<Bytes>, updateAgent: map<Bytes, DPoint>, multicast: seq<TickMulticast>)

  const EMPTY_TICK := TimeTick([], map[], [])

  /** `toDouble` reads a number and returns the text the writer prints for it, if it is one. */
  datatype Config = Config(maxAgents: nat, disableCommunication: bool, disableLocationUpdate: bool,
                           toDouble: Bytes -> Option<Bytes>)

  datatype TraceState = TraceState(ticks: map<nat, TimeTick>, agentLimit: set<Bytes>, agentsList: set<Bytes>)

  const EMPTY_TRACE := TraceState(map[], {}, {})

  // ---------- lexing ----------

  function Split(s: Bytes, sep: Byte): (parts: seq<Bytes>)
    ensures parts != []
  {
    if s == [] then [[]]
    else
      var rest := Split(s[1..], sep);
      if s[0] == sep then [[]] + rest else [[s[0]] + rest[0]] + rest[1..]
  }

  /** The position of the first occurrence of `pattern`. */
  function IndexOf(s: Bytes, pattern: Bytes): (r: Option<nat>)
    requires pattern != []
    ensures r.Some? ==> r.value + |pattern| <= |s| && s[r.value..r.value + |pattern|] == pattern
  {
    if pattern <= s then Some(0)
    else if s == [] then None
    else
      match IndexOf(s[1..], pattern)
      case None => None
      case Some(k) => Some(k + 1)
  }

  /** A 32-bit number with an optional sign; a minus sign wraps around. */
  function ToUnsigned(t: Bytes): Result<nat> {
    if t != [] && t[0] == '-' then
      var n :- ToMagnitude(t[1..]);
      Ok((0x1_0000_0000 - n) % 0x1_0000_0000)
    else if t != [] && t[0] == '+' then ToMagnitude(t[1..])
    else ToMagnitude(t)
  }

  function ToMagnitude(t: Bytes): (r: Result<nat>)
    ensures r.Ok? ==> r.value < 0x1_0000_0000
  {
    if t != [] && AllDigits(t) && DigitsValue(t) < 0x1_0000_0000 then Ok(DigitsValue(t)) else Raised(BadCast)
  }

  /** From the sixth byte up to "ms"; up to the end when "ms" is missing or comes earlier. */
  function TimeOf(t: Bytes): Result<nat> {
    if |t| < 5 then Raised(OutOfBounds)
    else
      match IndexOf(t, "ms")
      case Some(k) => ToUnsigned(if k >= 5 then t[5..k] else t[5..])
      case None => ToUnsigned(t[5..])
  }

  function AgentOf(t: Bytes): Bytes {
    match IndexOf(t, ":")
    case Some(k) => t[k + 1..]
    case None => t
  }

  /** The value behind a colon; without a colon, everything but the last byte. */
  function ValueOf(t: Bytes): Bytes {
    match IndexOf(t, ":")
    case Some(k) => t[k + 1..]
    case None => if t == [] then [] else t[..|t| - 1]
  }

  datatype Kind = MULTICAST | ADD | UPDATE

  /** An unknown line type reads as a multicast. */
  function KindOf(t: Bytes): Kind {
    if t == "add_agent" then ADD else if t == "update_agent" then UPDATE else MULTICAST
  }

  datatype Line = TickLine(time: nat) | DataLine(kind: Kind, time: nat, agent: Bytes, tokens: seq<Bytes>)

  function Lex(line: Bytes): Result<Line> {
    var tokens := Split(line, ';');
    if |tokens| == 1 then
      var time :- ToUnsigned(tokens[0]);
      Ok(TickLine(time))
    else
      var time :- TimeOf(tokens[1]);
      if |tokens| < 3 then Raised(OutOfBounds)
      else Ok(DataLine(KindOf(tokens[0]), time, AgentOf(tokens[2]), tokens))
  }

  function PointOf(cfg: Config, l: Line): Result<DPoint>
    requires l.DataLine?
  {
    if |l.tokens| < 5 then Raised(OutOfBounds)
    else
      match (cfg.toDouble(ValueOf(l.tokens[3])), cfg.toDouble(ValueOf(l.tokens[4])))
      case (Some(x), Some(y)) => Ok(DPoint(x, y))
      case _ => Raised(BadCast)
  }

  function NonEmpty(ids: seq<Bytes>): seq<Bytes> {
    if ids == [] then []
    else (if ids[0] == [] then [] else [ids[0]]) + NonEmpty(ids[1..])
  }

  function CastOf(l: Line): Result<TickMulticast>
    requires l.DataLine?
  {
    if |l.tokens| < 5 then Raised(OutOfBounds)
    else Ok(TickMulticast(l.agent, NonEmpty(Split(ValueOf(l.tokens[3]), ',')), l.tokens[4]))
  }

  // ---------- one line ----------

  function TickAt(s: TraceState, time: nat): TimeTick {
    if time in s.ticks then s.ticks[time] else EMPTY_TICK
  }

  function AddLine(cfg: Config, s: TraceState, l: Line): TraceState
    requires l.DataLine?
  {
    var limit := if |s.agentLimit| < cfg.maxAgents then s.agentLimit + {l.agent} else s.agentLimit;
    if l.agent !in limit then s.(agentLimit := limit)
    else
      var tick := TickAt(s, l.time);
      TraceState(s.ticks[l.time := tick.(addAgent := tick.addAgent + [l.agent])], limit, s.agentsList + {l.agent})
  }

  function ApplyLine(cfg: Config, s: TraceState, l: Line): Result<TraceState> {
    match l
    case TickLine(time) => Ok(s.(ticks := s.ticks[time := EMPTY_TICK]))
    case DataLine(ADD, _, _, _) => Ok(AddLine(cfg, s, l))
    case DataLine(UPDATE, time, agent, _) =>
      if cfg.disableLocationUpdate || agent !in s.agentLimit then Ok(s)
      else
        var p :- PointOf(cfg, l);
        var tick := TickAt(s, time);
        Ok(s.(ticks := s.ticks[time := tick.(updateAgent := tick.updateAgent[agent := p])]))
    case DataLine(MULTICAST, time, agent, _) =>
      if cfg.disableCommunication || agent !in s.agentLimit then Ok(s)
      else
        var m :- CastOf(l);
        var tick := TickAt(s, time);
        Ok(s.(ticks := s.ticks[time := tick.(multicast := tick.multicast + [m])]))
  }

  function LexAll(lines: seq<Bytes>): Result<seq<Line>> {
    if lines == [] then Ok([])
    else
      var before :- LexAll(lines[..|lines| - 1]);
      var last :- Lex(lines[|lines| - 1]);
      Ok(before + [last])
  }

  /** The state after the given lines. */
  function Run(cfg: Config, ls: seq<Line>): Result<TraceState> {
    if ls == [] then Ok(EMPTY_TRACE)
    else
      var s :- Run(cfg, ls[..|ls| - 1]);
      ApplyLine(cfg, s, ls[|ls| - 1])
  }

  function OneLine(cfg: Config, s: TraceState, line: Bytes): Result<TraceState> {
    var l :- Lex(line);
    ApplyLine(cfg, s, l)
  }

  /** Lines are lexed one at a time, so an earlier line's failure comes first. */
  function ParseAll(cfg: Config, start: TraceState, lines: seq<Bytes>): Result<TraceState> {
    if lines == [] then Ok(start)
    else
      var s :- ParseAll(cfg, start, lines[..|lines| - 1]);
      OneLine(cfg, s, lines[|lines| - 1])
  }

  lemma ParseNext(cfg: Config, start: TraceState, lines: seq<Bytes>, i: nat)
    requires i < |lines| && ParseAll(cfg, start, lines[..i]).Ok?
    ensures ParseAll(cfg, start, lines[..i + 1]) == OneLine(cfg, ParseAll(cfg, start, lines[..i]).value, lines[i])
  {
    assert lines[..i + 1][..i] == lines[..i];
  }

  lemma {:induction false} ParseIsRun(cfg: Config, lines: seq<Bytes>)
    requires ParseAll(cfg, EMPTY_TRACE, lines).Ok?
    ensures LexAll(lines).Ok? && Run(cfg, LexAll(lines).value) == ParseAll(cfg, EMPTY_TRACE, lines)
  {
    if lines != [] {
      ParseIsRun(cfg, lines[..|lines| - 1]);
      var ls := LexAll(lines).value;
      assert ls[..|ls| - 1] == LexAll(lines[..|lines| - 1]).value;
    }
  }

  class TraceParser {
    const cfg: Config
    var traceTimeTicks: map<nat, TimeTick>
    var agentLimit: set<Bytes>
    var agentsList: set<Bytes>

    ghost function View(): TraceState
      reads this
    {
      TraceState(traceTimeTicks, agentLimit, agentsList)
    }

    constructor (cfg: Config)
      ensures this.cfg == cfg && View() == EMPTY_TRACE
    {
      this.cfg := cfg;
      traceTimeTicks, agentLimit, agentsList := map[], {}, {};
    }

    method ParseLine(line: Bytes) returns (r: Result<()>)
      modifies this
      ensures match OneLine(cfg, old(View()), line)
        case Ok(s) => r == Ok(()) && View() == s
        case Raised(why) => r == Raised(why)
    {
      var l :- Lex(line);
      match l {
        case TickLine(time) =>
          traceTimeTicks := traceTimeTicks[time := EMPTY_TICK];
        case DataLine(kind, time, agent, tokens) =>
          var tick := if time in traceTimeTicks then traceTimeTicks[time] else EMPTY_TICK;
          match kind {
            case ADD =>
              if |agentLimit| < cfg.maxAgents {
                agentLimit := agentLimit + {agent};
              }
              if agent in agentLimit {
                traceTimeTicks := traceTimeTicks[time := tick.(addAgent := tick.addAgent + [agent])];
                agentsList := agentsList + {agent};
              }
            case UPDATE =>
              if !cfg.disableLocationUpdate && agent in agentLimit {
                var p :- PointOf(cfg, l);
                traceTimeTicks := traceTimeTicks[time := tick.(updateAgent := tick.updateAgent[agent := p])];
              }
            case MULTICAST =>
              if !cfg.disableCommunication && agent in agentLimit {
                var m :- CastOf(l);
                traceTimeTicks := traceTimeTicks[time := tick.(multicast := tick.multicast + [m])];
              }
          }
      }
      r := Ok(());
    }

    /** Read a whole file. Ticks read before are dropped, agents are kept. */
    method Parse(lines: seq<Bytes>) returns (r: Result<()>)
      modifies this
      ensures match ParseAll(cfg, old(View()).(ticks := map[]), lines)
        case Ok(s) => r == Ok(()) && View() == s
        case Raised(why) => r == Raised(why)
    {
      traceTimeTicks := map[];
      ghost var start := View();
      var i := 0;
      while i < |lines|
        invariant 0 <= i <= |lines|
        invariant ParseAll(cfg, start, lines[..i]) == Ok(View())
      {
        ParseNext(cfg, start, lines, i);
        r := ParseLine(lines[i]);
        if r.Raised? {
          RaiseStays(cfg, start, lines, i + 1);
          return;
        }
        i := i + 1;
      }
      assert lines[..i] == lines;
      r := Ok(());
    }
  }

  lemma {:induction false} RaiseStays(cfg: Config, start: TraceState, lines: seq<Bytes>, k: nat)
    requires k <= |lines| && ParseAll(cfg, start, lines[..k]).Raised?
    ensures ParseAll(cfg, start, lines) == ParseAll(cfg, start, lines[..k])
    decreases |lines| - k
  {
    if k == |lines| {
      assert lines[..k] == lines;
    } else {
      assert lines[..k + 1][..k] == lines[..k];
      RaiseStays(cfg, start, lines, k + 1);
    }
  }
}
