/** What the end of the connection does to the client, over every run. */
module Closing {
  import opened Octets
  import opened AgentRegistry
  import opened Broker
  import opened BrokerRuns

  lemma {:induction false} ExecAppend(s: State, a: seq<Event>, b: seq<Event>)
    ensures Exec(s, a + b) == Exec(Exec(s, a), b)
    decreases |a|
  {
    if a == [] {
      assert a + b == b;
    } else {
      assert (a + b)[1..] == a[1..] + b;
      ExecAppend(Step(s, a[0]), a[1..], b);
    }
  }

  lemma ExecSplit(s: State, es: seq<Event>, i: nat)
    requires i < |es|
    ensures Exec(s, es) == Exec(Step(Exec(s, es[..i]), es[i]), es[i + 1..])
  {
    assert es == es[..i] + ([es[i]] + es[i + 1..]);
    ExecAppend(s, es[..i], [es[i]] + es[i + 1..]);
    assert ([es[i]] + es[i + 1..])[1..] == es[i + 1..];
  }

  /** Nothing was sent, no tick was counted and no bundle was handled between the two states. */
  ghost predicate Frozen(s: State, t: State) {
    t.sent == s.sent && t.tick == s.tick && t.handled == s.handled && t.world == s.world
  }

  lemma ClosedStep(s: State, e: Event)
    requires !s.open || s.sim.Crashed?
    ensures Frozen(s, Step(s, e)) && (!Step(s, e).open || Step(s, e).sim.Crashed?)
  {
  }

  lemma {:induction false} ClosedStays(s: State, es: seq<Event>)
    requires !s.open || s.sim.Crashed?
    ensures Frozen(s, Exec(s, es)) && (!Exec(s, es).open || Exec(s, es).sim.Crashed?)
    decreases |es|
  {
    if es != [] {
      ClosedStep(s, es[0]);
      ClosedStays(Step(s, es[0]), es[1..]);
    }
  }

  /** From the close on, whatever happens, nothing more is sent, counted or handled. */
  lemma NothingAfterClose(w: World, es: seq<Event>, i: nat)
    requires i < |es| && es[i] == Close
    ensures Frozen(Exec(Initial(w), es[..i]), Exec(Initial(w), es))
    ensures !Exec(Initial(w), es).sim.Crashed? ==> !Exec(Initial(w), es).open
  {
    var s := Exec(Initial(w), es[..i]);
    ExecSplit(Initial(w), es, i);
    ClosedStays(Step(s, Close), es[i + 1..]);
  }

  // ---------- leaving ----------

  lemma {:induction false} LeftStays(s: State, es: seq<Event>)
    requires s.sim == Left
    ensures Exec(s, es).sim == Left || Exec(s, es).sim.Crashed?
    decreases |es|
  {
    if es != [] {
      var t := Step(s, es[0]);
      if t.sim.Crashed? { DownStays(t, es[1..]); } else { LeftStays(t, es[1..]); }
    }
  }

  /** The connection is closed, and the simulation thread, if it still runs, is not told to wait. */
  ghost predicate Leaving(s: State) {
    s.sim.Crashed? || (!s.open && (s.sim == Running ==> !s.paused))
  }

  lemma {:induction false} LeavingStays(s: State, es: seq<Event>)
    requires Leaving(s)
    ensures Leaving(Exec(s, es))
    decreases |es|
  {
    if es != [] { LeavingStays(Step(s, es[0]), es[1..]); }
  }

  lemma DeliveryWakes(w: World, es: seq<Event>, i: nat, j: nat)
    requires i < j < |es| && es[i] == Close && es[j].Receive?
    ensures Leaving(Step(Exec(Initial(w), es[..j]), es[j]))
  {
    assert es[..j][i] == Close;
    NothingAfterClose(w, es[..j], i);
  }

  lemma TurnLeaves(s: State, es: seq<Event>, k: nat)
    requires Leaving(s) && k < |es| && es[k] == Round && !Exec(s, es).sim.Crashed?
    ensures Exec(s, es).sim == Left
  {
    var t := Exec(s, es[..k]);
    ExecSplit(s, es, k);
    LeavingStays(s, es[..k]);
    if t.sim.Crashed? {
      DownStays(t, es[k + 1..]);
    } else {
      LeftStays(Step(t, Round), es[k + 1..]);
    }
  }

  /** After the close, the first turn of the simulation thread behind the next delivery makes it
      leave, and it never comes back. */
  lemma LeavesAfterClose(w: World, es: seq<Event>, i: nat, j: nat, k: nat)
    requires i < j < k < |es| && es[i] == Close && es[j].Receive? && es[k] == Round
    requires !Exec(Initial(w), es).sim.Crashed?
    ensures Exec(Initial(w), es).sim == Left
  {
    ExecSplit(Initial(w), es, j);
    DeliveryWakes(w, es, i, j);
    assert es[j + 1..][k - j - 1] == es[k];
    TurnLeaves(Step(Exec(Initial(w), es[..j]), es[j]), es[j + 1..], k - j - 1);
  }

  lemma {:induction false} OpenRuns(s: State, es: seq<Event>)
    requires s.open && s.sim != Left && Close !in es
    ensures Exec(s, es).open && Exec(s, es).sim != Left
    decreases |es|
  {
    if es != [] {
      assert es[0] in es && Close !in es[1..];
      OpenRuns(Step(s, es[0]), es[1..]);
    }
  }

  /** The simulation thread leaves only when the connection was closed. */
  lemma LeavesOnlyClosed(w: World, es: seq<Event>)
    requires Exec(Initial(w), es).sim == Left
    ensures Close in es
  {
    if Close !in es { OpenRuns(Initial(w), es); }
  }
}
