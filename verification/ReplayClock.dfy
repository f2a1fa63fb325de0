/**
 When each tick of a trace runs: a step that reschedules itself on a simulated
 clock, whatever pushing a tick and handling what was pushed turn out to do.
 */
module ReplayClock {
  import opened Octets

  /** One run of the replay step: the simulated time it ran at, and the tick it replayed. */
  datatype Replayed = Replayed(at: nat, tick: nat)

  /** `Broken`: a division by zero, or a read past the end of an empty trace. `Failed`: an exception. */
  datatype Status = Scheduled | Stopped | Broken | Failed(why: Failure)

  datatype Clock<W> = Clock(next: nat, interval: nat, now: nat, runs: seq<Replayed>, world: W, status: Status)

  function Ready<W>(w: W): Clock<W> {
    Clock(0, 0, 0, [], w, Scheduled)
  }

  /** What a replay does with the tick at an index: push it, then handle what was pushed. */
  datatype Work<!W, !B> = Work(push: nat -> Result<B>, handle: (W, B) -> Result<W>)

  /** A trace is replayed in the order its ticks are stored: ascending times. */
  ghost predicate Increasing(times: seq<nat>) {
    forall i, j :: 0 <= i < j < |times| ==> times[i] < times[j]
  }

  /** One run: push the current tick, work out the interval, handle what was pushed, and schedule
      the next run or stop. */
  function Tick<W, B>(times: seq<nat>, work: Work<W, B>, c: Clock<W>): Clock<W>
    requires Increasing(times)
  {
    if c.status != Scheduled then c
    else if c.next >= |times| then c.(status := Broken)
    else if times[c.next] > 0 && |times| / 10 == 0 then c.(status := Broken)
    else
      match work.push(c.next)
      case Raised(why) => c.(status := Failed(why))
      case Ok(bundle) => React(times, work, c, bundle)
  }

  function React<W, B>(times: seq<nat>, work: Work<W, B>, c: Clock<W>, bundle: B): Clock<W>
    requires Increasing(times) && c.next < |times|
  {
    var next := c.next + 1;
    var interval := if next < |times| then times[next] - times[c.next] else c.interval;
    if interval == 0 then c.(next := next, status := Broken)
    else
      match work.handle(c.world, bundle)
      case Raised(why) => c.(status := Failed(why))
      case Ok(w) =>
        var runs := c.runs + [Replayed(c.now, times[c.next])];
        if next < |times| then Clock(next, interval, c.now + interval, runs, w, Scheduled)
        else Clock(next, interval, c.now, runs, w, Stopped)
  }

  /** The state after n runs. */
  function After<W, B>(times: seq<nat>, work: Work<W, B>, w: W, n: nat): Clock<W>
    requires Increasing(times)
  {
    if n == 0 then Ready(w) else Tick(times, work, After(times, work, w, n - 1))
  }

  lemma {:induction false} EndStays<W, B>(times: seq<nat>, work: Work<W, B>, w: W, k: nat, n: nat)
    requires Increasing(times) && k <= n && After(times, work, w, k).status != Scheduled
    ensures After(times, work, w, n) == After(times, work, w, k)
    decreases n
  {
    if k < n { EndStays(times, work, w, k, n - 1); }
  }

  // ---------- long traces ----------

  /** The runs of the first k ticks. */
  function Expected(times: seq<nat>, k: nat): (r: seq<Replayed>)
    requires k <= |times| && Increasing(times)
    ensures |r| == k
  {
    seq(k, i requires 0 <= i < k => Replayed(if i == 0 then 0 else times[i] - times[0], times[i]))
  }

  /** The world after the first k ticks are pushed and handled, without any clock. */
  function Effect<W, B>(work: Work<W, B>, w: W, k: nat): Result<W> {
    if k == 0 then Ok(w)
    else
      var v :- Effect(work, w, k - 1);
      var bundle :- work.push(k - 1);
      work.handle(v, bundle)
  }

  ghost predicate OnTime<W>(times: seq<nat>, k: nat, c: Clock<W>)
    requires Increasing(times) && k <= |times|
  {
    && c.next == k && c.runs == Expected(times, k)
    && (k > 0 ==> c.interval > 0)
    && c.status == (if k < |times| then Scheduled else Stopped)
    && (k < |times| ==> c.now == times[k] - times[0])
  }

  /** One run of a long enough trace. */
  lemma RunOnTime<W, B>(times: seq<nat>, work: Work<W, B>, k: nat, c: Clock<W>)
    requires Increasing(times) && |times| >= 10 && k < |times| && OnTime(times, k, c)
    ensures var d := Tick(times, work, c);
      var pushed := work.push(k);
      if pushed.Raised? then d == c.(status := Failed(pushed.why))
      else
        var handled := work.handle(c.world, pushed.value);
        if handled.Raised? then d == c.(status := Failed(handled.why))
        else OnTime(times, k + 1, d) && d.world == handled.value
  {
    assert |times| / 10 > 0;
    assert k > 0 ==> times[0] < times[k];
    assert k + 1 < |times| ==> times[k] < times[k + 1];
    assert Expected(times, k + 1) == Expected(times, k) + [Replayed(c.now, times[k])];
  }

  /** A long trace is on time as long as nothing raises, and ends at the first tick that does. */
  lemma {:induction false} AfterRuns<W, B>(times: seq<nat>, work: Work<W, B>, w: W, k: nat)
    requires Increasing(times) && |times| >= 10 && k <= |times|
    ensures match Effect(work, w, k)
      case Ok(v) => OnTime(times, k, After(times, work, w, k)) && After(times, work, w, k).world == v
      case Raised(why) => After(times, work, w, k).status == Failed(why)
    decreases k
  {
    if k > 0 {
      AfterRuns(times, work, w, k - 1);
      if Effect(work, w, k - 1).Ok? {
        RunOnTime(times, work, k - 1, After(times, work, w, k - 1));
      }
    }
  }

  lemma {:induction false} EffectStops<W, B>(work: Work<W, B>, w: W, k: nat, n: nat)
    requires k <= n && Effect(work, w, k).Raised?
    ensures Effect(work, w, n) == Effect(work, w, k)
    decreases n
  {
    if k < n { EffectStops(work, w, k, n - 1); }
  }

  // ---------- short traces ----------

  /** How a trace of fewer than ten ticks ends: without ticks by a read past the end of the trace;
      otherwise by a division by zero, unless its first tick is at time zero and raises before that. */
  function ShortEnd<W, B>(times: seq<nat>, work: Work<W, B>, w: W): Status {
    if times == [] || times[0] > 0 then Broken
    else
      match work.push(0)
      case Raised(why) => Failed(why)
      case Ok(bundle) =>
        if |times| == 1 then Broken
        else
          match work.handle(w, bundle)
          case Raised(why) => Failed(why)
          case Ok(_) => Broken
  }

  lemma ShortFirst<W, B>(times: seq<nat>, work: Work<W, B>, w: W)
    requires Increasing(times) && |times| < 10
    ensures var d := Tick(times, work, Ready(w));
      if d.status == Scheduled then ShortEnd(times, work, w) == Broken && d.next == 1 < |times|
      else d.status == ShortEnd(times, work, w)
  {
    if |times| > 1 { assert times[0] < times[1]; }
  }

  lemma ShortSecond<W, B>(times: seq<nat>, work: Work<W, B>, c: Clock<W>)
    requires Increasing(times) && |times| < 10 && c.status == Scheduled && c.next == 1 < |times|
    ensures Tick(times, work, c).status == Broken
  {
    assert times[0] < times[1];
  }

  /** A trace of fewer than ten ticks ends like that, within its first two runs, and never stops. */
  lemma ShortBreaks<W, B>(times: seq<nat>, work: Work<W, B>, w: W, n: nat)
    requires Increasing(times) && |times| < 10
    ensures After(times, work, w, n).status != Stopped
    ensures n >= 2 ==> After(times, work, w, n).status == ShortEnd(times, work, w)
  {
    var d := After(times, work, w, 1);
    assert d == Tick(times, work, After(times, work, w, 0));
    ShortFirst(times, work, w);
    if d.status != Scheduled {
      if n >= 1 { EndStays(times, work, w, 1, n); }
    } else {
      ShortSecond(times, work, d);
      assert After(times, work, w, 2) == Tick(times, work, d);
      if n >= 2 { EndStays(times, work, w, 2, n); }
    }
  }

  // ---------- the law ----------

  ghost predicate ReachesStop<W, B>(times: seq<nat>, work: Work<W, B>, w: W)
    requires Increasing(times)
  {
    exists n: nat :: After(times, work, w, n).status == Stopped
  }

  /** The step ran once per tick in ascending order, the run of tick t_k at time t_k - t_0, only the
      last run stopped, and it left the given world. */
  ghost predicate StoppedOnTime<W, B>(times: seq<nat>, work: Work<W, B>, w: W, left: Result<W>)
    requires Increasing(times)
  {
    var c := After(times, work, w, |times|);
    && c.status == Stopped && c.runs == Expected(times, |times|) && Ok(c.world) == left
    && forall k: nat :: k < |times| ==> After(times, work, w, k).status == Scheduled
  }

  /** Whatever pushing and handling do: a replay reaches its stop exactly when the trace has at
      least ten ticks and none of them raises. It then stops on time, in the world of the ticks one
      after another. */
  lemma ReplayStops<W, B>(times: seq<nat>, work: Work<W, B>, w: W)
    requires Increasing(times)
    ensures ReachesStop(times, work, w) <==> |times| >= 10 && Effect(work, w, |times|).Ok?
    ensures ReachesStop(times, work, w) ==> StoppedOnTime(times, work, w, Effect(work, w, |times|))
  {
    if |times| < 10 {
      forall n: nat ensures After(times, work, w, n).status != Stopped { ShortBreaks(times, work, w, n); }
    } else if Effect(work, w, |times|).Ok? {
      AfterRuns(times, work, w, |times|);
      assert After(times, work, w, |times|).status == Stopped;
      forall k: nat | k < |times| ensures After(times, work, w, k).status == Scheduled {
        if Effect(work, w, k).Raised? { EffectStops(work, w, k, |times|); }
        AfterRuns(times, work, w, k);
      }
    } else {
      forall n: nat ensures After(times, work, w, n).status != Stopped { NeverStops(times, work, w, n); }
    }
  }

  lemma NeverStops<W, B>(times: seq<nat>, work: Work<W, B>, w: W, n: nat)
    requires Increasing(times) && |times| >= 10 && Effect(work, w, |times|).Raised?
    ensures After(times, work, w, n).status != Stopped
  {
    if n < |times| {
      AfterRuns(times, work, w, n);
    } else {
      AfterRuns(times, work, w, |times|);
      EndStays(times, work, w, |times|, n);
    }
  }

  /** A long trace ends at its first tick that raises: every tick before has run on time, and none
      runs after. */
  lemma FailsAtFirst<W, B>(times: seq<nat>, work: Work<W, B>, w: W, k: nat, n: nat)
    requires Increasing(times) && |times| >= 10 && k < |times| && k < n
    requires Effect(work, w, k).Ok? && Effect(work, w, k + 1).Raised?
    ensures After(times, work, w, k).status == Scheduled
    ensures After(times, work, w, n).status == Failed(Effect(work, w, k + 1).why)
    ensures After(times, work, w, n).runs == Expected(times, k)
  {
    AfterRuns(times, work, w, k);
    RunOnTime(times, work, k, After(times, work, w, k));
    assert After(times, work, w, k + 1) == Tick(times, work, After(times, work, w, k));
    EndStays(times, work, w, k + 1, n);
  }

  /** A replay that is no longer scheduled has stopped as described, or never will. */
  lemma Ended<W, B>(times: seq<nat>, work: Work<W, B>, w: W, n: nat)
    requires Increasing(times) && After(times, work, w, n).status != Scheduled
    ensures var c := After(times, work, w, n);
      && (c.status == Stopped <==> |times| >= 10 && Effect(work, w, |times|).Ok?)
      && (c.status == Stopped ==> c.runs == Expected(times, |times|) && Ok(c.world) == Effect(work, w, |times|))
  {
    ReplayStops(times, work, w);
    if |times| >= 10 && Effect(work, w, |times|).Ok? {
      if n <= |times| { EndStays(times, work, w, n, |times|); } else { EndStays(times, work, w, |times|, n); }
    }
  }
}
