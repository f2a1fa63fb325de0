/** What a trace holds after any sequence of lines, told from the lines alone. */
module TraceHistory {
  import opened Octets
  import opened Messages
  import opened Trace

  // ---------- the agent cap ----------

  /** The agents named by add lines, in order. */
  function AddIds(ls: seq<Line>): seq<Bytes> {
    if ls == [] then []
    else
      var l := ls[|ls| - 1];
      AddIds(ls[..|ls| - 1]) + (if l.DataLine? && l.kind == ADD then [l.agent] else [])
  }

  function SetOf(ids: seq<Bytes>): set<Bytes> {
    set i | 0 <= i < |ids| :: ids[i]
  }

  /** The first `max` distinct ids: those that occur where fewer than `max` distinct ids came before. */
  function FirstDistinct(ids: seq<Bytes>, max: nat): set<Bytes> {
    set i | 0 <= i < |ids| && |SetOf(ids[..i])| < max :: ids[i]
  }

  lemma SetOfExtend(ids: seq<Bytes>, x: Bytes)
    ensures SetOf(ids + [x]) == SetOf(ids) + {x}
  {
    var t := ids + [x];
    assert t[|ids|] == x;
    forall y | y in SetOf(t) ensures y in SetOf(ids) + {x} {
      var i :| 0 <= i < |t| && t[i] == y;
      if i < |ids| { assert ids[i] == y; }
    }
    forall y | y in SetOf(ids) ensures y in SetOf(t) {
      var i :| 0 <= i < |ids| && ids[i] == y;
      assert t[i] == y;
    }
  }

  lemma ExtendedInto(ids: seq<Bytes>, x: Bytes, max: nat, y: Bytes)
    requires y in FirstDistinct(ids + [x], max)
    ensures y in FirstDistinct(ids, max) || (y == x && |SetOf(ids)| < max)
  {
    var t := ids + [x];
    var i :| 0 <= i < |t| && |SetOf(t[..i])| < max && t[i] == y;
    if i < |ids| {
      assert t[..i] == ids[..i] && ids[i] == y;
    } else {
      assert t[..i] == ids;
    }
  }

  lemma ExtendedFrom(ids: seq<Bytes>, x: Bytes, max: nat, y: Bytes)
    requires y in FirstDistinct(ids, max) || (y == x && |SetOf(ids)| < max)
    ensures y in FirstDistinct(ids + [x], max)
  {
    var t := ids + [x];
    if y in FirstDistinct(ids, max) {
      var i :| 0 <= i < |ids| && |SetOf(ids[..i])| < max && ids[i] == y;
      assert t[..i] == ids[..i] && t[i] == y;
    } else {
      assert t[..|ids|] == ids && t[|ids|] == y;
    }
  }

  lemma FirstDistinctExtend(ids: seq<Bytes>, x: Bytes, max: nat)
    ensures FirstDistinct(ids + [x], max) == FirstDistinct(ids, max) + (if |SetOf(ids)| < max then {x} else {})
  {
    forall y | y in FirstDistinct(ids + [x], max)
      ensures y in FirstDistinct(ids, max) || (y == x && |SetOf(ids)| < max)
    {
      ExtendedInto(ids, x, max, y);
    }
    forall y | y in FirstDistinct(ids, max) || (y == x && |SetOf(ids)| < max)
      ensures y in FirstDistinct(ids + [x], max)
    {
      ExtendedFrom(ids, x, max, y);
    }
  }

  /** The cap holds and is used up: the set has as many ids as there are, up to `max`. */
  lemma {:induction false} FirstDistinctSize(ids: seq<Bytes>, max: nat)
    ensures Capped(SetOf(ids), FirstDistinct(ids, max), max)
  {
    if ids != [] {
      var init, x := ids[..|ids| - 1], ids[|ids| - 1];
      assert ids == init + [x];
      FirstDistinctSize(init, max);
      SetOfExtend(init, x);
      FirstDistinctExtend(init, x, max);
      CapStep(SetOf(init), FirstDistinct(init, max), x, max);
    }
  }

  ghost predicate Capped(s: set<Bytes>, f: set<Bytes>, max: nat) {
    f <= s && (|s| <= max ==> f == s) && (|s| > max ==> |f| == max)
  }

  lemma CapStep(s: set<Bytes>, f: set<Bytes>, x: Bytes, max: nat)
    requires Capped(s, f, max)
    ensures Capped(s + {x}, f + (if |s| < max then {x} else {}), max)
  {
    if x in s {
      assert s + {x} == s;
    } else {
      assert |s + {x}| == |s| + 1;
    }
    assert f + {} == f;
  }

  lemma Unfold(cfg: Config, ls: seq<Line>)
    requires Run(cfg, ls).Ok? && ls != []
    ensures Run(cfg, ls[..|ls| - 1]).Ok?
    ensures ApplyLine(cfg, Run(cfg, ls[..|ls| - 1]).value, ls[|ls| - 1]) == Run(cfg, ls)
  {
  }

  /** After any lines, the known agents are exactly the first `maxAgents` distinct ids of the add lines. */
  lemma {:induction false} AgentCap(cfg: Config, ls: seq<Line>)
    requires Run(cfg, ls).Ok?
    ensures Run(cfg, ls).value.agentLimit == FirstDistinct(AddIds(ls), cfg.maxAgents)
    ensures Run(cfg, ls).value.agentsList == Run(cfg, ls).value.agentLimit
    ensures |Run(cfg, ls).value.agentLimit| <= cfg.maxAgents
  {
    FirstDistinctSize(AddIds(ls), cfg.maxAgents);
    if ls != [] {
      var init, l := ls[..|ls| - 1], ls[|ls| - 1];
      Unfold(cfg, ls);
      AgentCap(cfg, init);
      if l.DataLine? && l.kind == ADD {
        CapAdd(cfg, Run(cfg, init).value, AddIds(init), l);
      } else {
        assert AddIds(ls) == AddIds(init);
      }
    }
  }

  lemma CapAdd(cfg: Config, s: TraceState, ids: seq<Bytes>, l: Line)
    requires l.DataLine? && s.agentLimit == s.agentsList == FirstDistinct(ids, cfg.maxAgents)
    ensures var s' := AddLine(cfg, s, l);
      s'.agentLimit == s'.agentsList == FirstDistinct(ids + [l.agent], cfg.maxAgents)
  {
    FirstDistinctSize(ids, cfg.maxAgents);
    FirstDistinctExtend(ids, l.agent, cfg.maxAgents);
  }

  // ---------- what each tick holds ----------

  /** Whether the trace keeps a line when these are the known agents. */
  predicate Keeps(cfg: Config, l: Line, agents: set<Bytes>) {
    && l.DataLine?
    && l.agent in agents
    && (l.kind == UPDATE ==> !cfg.disableLocationUpdate)
    && (l.kind == MULTICAST ==> !cfg.disableCommunication)
  }

  /** Whether the last of these lines is one the trace keeps. */
  predicate KeepsLast(cfg: Config, ls: seq<Line>)
    requires ls != []
  {
    Keeps(cfg, ls[|ls| - 1], FirstDistinct(AddIds(ls), cfg.maxAgents))
  }

  /** The kept lines of one tick since its tick line, in order. */
  function Kept(cfg: Config, ls: seq<Line>, t: nat): seq<Line> {
    if ls == [] then []
    else
      var l, before := ls[|ls| - 1], Kept(cfg, ls[..|ls| - 1], t);
      if l == TickLine(t) then []
      else if l.time == t && KeepsLast(cfg, ls) then before + [l]
      else before
  }

  /** Whether a tick exists: it had a tick line or a kept line. */
  predicate Known(cfg: Config, ls: seq<Line>, t: nat) {
    ls != [] &&
    (Known(cfg, ls[..|ls| - 1], t) || ls[|ls| - 1] == TickLine(t) || (ls[|ls| - 1].time == t && KeepsLast(cfg, ls)))
  }

  function Casts(ls: seq<Line>): seq<Result<TickMulticast>> {
    if ls == [] then []
    else
      var l := ls[|ls| - 1];
      Casts(ls[..|ls| - 1]) + (if l.DataLine? && l.kind == MULTICAST then [CastOf(l)] else [])
  }

  /** The latest update of an agent. */
  function LatestUpdate(cfg: Config, ls: seq<Line>, id: Bytes): Option<Result<DPoint>> {
    if ls == [] then None
    else
      var l := ls[|ls| - 1];
      if l.DataLine? && l.kind == UPDATE && l.agent == id then Some(PointOf(cfg, l))
      else LatestUpdate(cfg, ls[..|ls| - 1], id)
  }

  /** A tick's content is exactly the given lines: additions and multicasts in order, and for each
      agent its latest update. */
  ghost predicate Shows(cfg: Config, tick: TimeTick, ls: seq<Line>) {
    && tick.addAgent == AddIds(ls)
    && Casts(ls) == seq(|tick.multicast|, i requires 0 <= i < |tick.multicast| => Ok(tick.multicast[i]))
    && (forall id :: id in tick.updateAgent <==> LatestUpdate(cfg, ls, id).Some?)
    && (forall id :: id in tick.updateAgent ==> LatestUpdate(cfg, ls, id) == Some(Ok(tick.updateAgent[id])))
  }

  lemma ShowsAdd(cfg: Config, tick: TimeTick, ls: seq<Line>, l: Line)
    requires Shows(cfg, tick, ls) && l.DataLine? && l.kind == ADD
    ensures Shows(cfg, tick.(addAgent := tick.addAgent + [l.agent]), ls + [l])
  {
    assert (ls + [l])[..|ls|] == ls;
    assert Casts(ls + [l]) == Casts(ls) + [];
    assert forall id :: LatestUpdate(cfg, ls + [l], id) == LatestUpdate(cfg, ls, id);
  }

  lemma ShowsUpdate(cfg: Config, tick: TimeTick, ls: seq<Line>, l: Line)
    requires Shows(cfg, tick, ls) && l.DataLine? && l.kind == UPDATE && PointOf(cfg, l).Ok?
    ensures Shows(cfg, tick.(updateAgent := tick.updateAgent[l.agent := PointOf(cfg, l).value]), ls + [l])
  {
    assert (ls + [l])[..|ls|] == ls;
    assert Casts(ls + [l]) == Casts(ls) + [];
    assert AddIds(ls + [l]) == AddIds(ls) + [];
    forall id ensures LatestUpdate(cfg, ls + [l], id)
      == (if id == l.agent then Some(PointOf(cfg, l)) else LatestUpdate(cfg, ls, id))
    {
    }
  }

  lemma ShowsCast(cfg: Config, tick: TimeTick, ls: seq<Line>, l: Line)
    requires Shows(cfg, tick, ls) && l.DataLine? && l.kind == MULTICAST && CastOf(l).Ok?
    ensures Shows(cfg, tick.(multicast := tick.multicast + [CastOf(l).value]), ls + [l])
  {
    assert (ls + [l])[..|ls|] == ls;
    assert AddIds(ls + [l]) == AddIds(ls) + [];
    assert Casts(ls + [l]) == Casts(ls) + [CastOf(l)];
    assert forall id :: LatestUpdate(cfg, ls + [l], id) == LatestUpdate(cfg, ls, id);
  }

  /** What one line does to one tick: from `s` to `s'` by the line `l`, kept or not. */
  ghost predicate Marks(cfg: Config, s: TraceState, l: Line, kept: bool, s': TraceState, t: nat) {
    if l == TickLine(t) then t in s'.ticks && s'.ticks[t] == EMPTY_TICK
    else if !(l.time == t && kept) then (t in s'.ticks <==> t in s.ticks) && TickAt(s', t) == TickAt(s, t)
    else
      && l.DataLine? && t in s'.ticks
      && match l.kind
         case ADD => s'.ticks[t] == TickAt(s, t).(addAgent := TickAt(s, t).addAgent + [l.agent])
         case UPDATE =>
           && PointOf(cfg, l).Ok?
           && s'.ticks[t] == TickAt(s, t).(updateAgent := TickAt(s, t).updateAgent[l.agent := PointOf(cfg, l).value])
         case MULTICAST =>
           && CastOf(l).Ok?
           && s'.ticks[t] == TickAt(s, t).(multicast := TickAt(s, t).multicast + [CastOf(l).value])
  }

  lemma LineMarks(cfg: Config, s: TraceState, l: Line, t: nat)
    requires ApplyLine(cfg, s, l).Ok?
    ensures var s' := ApplyLine(cfg, s, l).value; Marks(cfg, s, l, Keeps(cfg, l, s'.agentLimit), s', t)
  {
  }

  lemma LineOnTick(cfg: Config, ls: seq<Line>, t: nat)
    requires ls != [] && Run(cfg, ls).Ok?
    ensures Run(cfg, ls[..|ls| - 1]).Ok?
    ensures Marks(cfg, Run(cfg, ls[..|ls| - 1]).value, ls[|ls| - 1], KeepsLast(cfg, ls), Run(cfg, ls).value, t)
  {
    Unfold(cfg, ls);
    AgentCap(cfg, ls);
    LineMarks(cfg, Run(cfg, ls[..|ls| - 1]).value, ls[|ls| - 1], t);
  }

  /** After any lines, each tick holds exactly its kept lines since its latest tick line,
      and exists exactly when it had a tick line or a kept line. */
  lemma {:induction false} TickContents(cfg: Config, ls: seq<Line>, t: nat)
    requires Run(cfg, ls).Ok?
    ensures var s := Run(cfg, ls).value;
      (t in s.ticks <==> Known(cfg, ls, t)) && Shows(cfg, TickAt(s, t), Kept(cfg, ls, t))
    decreases |ls|
  {
    if ls != [] {
      var init, l := ls[..|ls| - 1], ls[|ls| - 1];
      Unfold(cfg, ls);
      TickContents(cfg, init, t);
      LineOnTick(cfg, ls, t);
      var tick, kept := TickAt(Run(cfg, init).value, t), Kept(cfg, init, t);
      if l.time == t && KeepsLast(cfg, ls) {
        match l.kind
        case ADD => ShowsAdd(cfg, tick, kept, l);
        case UPDATE => ShowsUpdate(cfg, tick, kept, l);
        case MULTICAST => ShowsCast(cfg, tick, kept, l);
      }
    }
  }

  /** Every agent a tick stores anything about. */
  ghost predicate OnlyKnown(tick: TimeTick, agents: set<Bytes>) {
    && (forall i :: 0 <= i < |tick.addAgent| ==> tick.addAgent[i] in agents)
    && (forall id :: id in tick.updateAgent ==> id in agents)
    && (forall i :: 0 <= i < |tick.multicast| ==> tick.multicast[i].sender in agents)
  }

  /** Every stored addition, update or multicast is of an agent inside the cap. */
  lemma {:induction false} StoredAgents(cfg: Config, ls: seq<Line>)
    requires Run(cfg, ls).Ok?
    ensures var s := Run(cfg, ls).value; forall t :: t in s.ticks ==> OnlyKnown(s.ticks[t], s.agentsList)
  {
    if ls != [] {
      Unfold(cfg, ls);
      StoredAgents(cfg, ls[..|ls| - 1]);
      AgentCap(cfg, ls[..|ls| - 1]);
      var s, s' := Run(cfg, ls[..|ls| - 1]).value, Run(cfg, ls).value;
      forall t | t in s'.ticks ensures OnlyKnown(s'.ticks[t], s'.agentsList) {
        assert OnlyKnown(TickAt(s, t), s.agentsList);
        LineKeepsKnown(cfg, s, ls[|ls| - 1], t);
      }
    }
  }

  /** What a line adds to a tick belongs to its own agent. */
  lemma AddKnown(tick: TimeTick, agents: set<Bytes>, id: Bytes)
    requires OnlyKnown(tick, agents) && id in agents
    ensures OnlyKnown(tick.(addAgent := tick.addAgent + [id]), agents)
  {
  }

  lemma UpdateKnown(tick: TimeTick, agents: set<Bytes>, id: Bytes, p: DPoint)
    requires OnlyKnown(tick, agents) && id in agents
    ensures OnlyKnown(tick.(updateAgent := tick.updateAgent[id := p]), agents)
  {
  }

  lemma CastKnown(tick: TimeTick, agents: set<Bytes>, m: TickMulticast)
    requires OnlyKnown(tick, agents) && m.sender in agents
    ensures OnlyKnown(tick.(multicast := tick.multicast + [m]), agents)
  {
  }

  lemma MoreKnown(tick: TimeTick, agents: set<Bytes>, more: set<Bytes>)
    requires OnlyKnown(tick, agents) && agents <= more
    ensures OnlyKnown(tick, more)
  {
  }

  lemma AddKeepsKnown(cfg: Config, s: TraceState, l: Line, t: nat)
    requires l.DataLine? && s.agentLimit == s.agentsList && OnlyKnown(TickAt(s, t), s.agentsList)
    ensures OnlyKnown(TickAt(AddLine(cfg, s, l), t), AddLine(cfg, s, l).agentsList)
  {
    var s' := AddLine(cfg, s, l);
    MoreKnown(TickAt(s, t), s.agentsList, s'.agentsList);
    if l.agent in s'.agentsList { AddKnown(TickAt(s, t), s'.agentsList, l.agent); }
  }

  lemma LineKeepsKnown(cfg: Config, s: TraceState, l: Line, t: nat)
    requires s.agentLimit == s.agentsList && OnlyKnown(TickAt(s, t), s.agentsList) && ApplyLine(cfg, s, l).Ok?
    ensures OnlyKnown(TickAt(ApplyLine(cfg, s, l).value, t), ApplyLine(cfg, s, l).value.agentsList)
  {
    if l.TickLine? {
    } else if l.kind == ADD {
      AddKeepsKnown(cfg, s, l, t);
    } else if l.agent in s.agentsList {
      if l.kind == UPDATE {
        if PointOf(cfg, l).Ok? { UpdateKnown(TickAt(s, t), s.agentsList, l.agent, PointOf(cfg, l).value); }
      } else if CastOf(l).Ok? {
        CastKnown(TickAt(s, t), s.agentsList, CastOf(l).value);
      }
    }
  }

  // ---------- orderly traces ----------

  /** The kept lines of one tick, whatever its tick lines. */
  function AllKept(cfg: Config, ls: seq<Line>, t: nat): seq<Line> {
    if ls == [] then []
    else
      var l, before := ls[|ls| - 1], AllKept(cfg, ls[..|ls| - 1], t);
      if l.time == t && KeepsLast(cfg, ls) then before + [l] else before
  }

  /** No line of tick `t` comes before a tick line of `t`. */
  predicate Orderly(ls: seq<Line>, t: nat) {
    forall i, j :: 0 <= i < j < |ls| && ls[j] == TickLine(t) ==> ls[i].time != t
  }

  lemma {:induction false} NoneKept(cfg: Config, ls: seq<Line>, t: nat)
    requires forall i :: 0 <= i < |ls| ==> ls[i].time != t
    ensures AllKept(cfg, ls, t) == []
  {
    if ls != [] { NoneKept(cfg, ls[..|ls| - 1], t); }
  }

  /** When a tick's line precedes its data and is not repeated, no kept line is lost. */
  lemma {:induction false} OrderlyKeepsAll(cfg: Config, ls: seq<Line>, t: nat)
    requires Orderly(ls, t)
    ensures Kept(cfg, ls, t) == AllKept(cfg, ls, t)
    decreases |ls|
  {
    if ls != [] {
      var init := ls[..|ls| - 1];
      assert Orderly(init, t);
      OrderlyKeepsAll(cfg, init, t);
      if ls[|ls| - 1] == TickLine(t) {
        NoneKept(cfg, init, t);
      }
    }
  }
}
