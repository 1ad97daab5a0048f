/**
 * The CPU-overload assessor: the loop that samples the pod's CPU usage rate,
 * counts samples above the alert rate within an assessment window, signals a
 * thread dump once enough of them have been seen, and then stays silent for a
 * while before assessing afresh.
 *
 * Time is in nanoseconds and is an input of every iteration, as is the rate
 * sample (FetchFailed when the metrics query failed).
 */
module Assessor {

  const NanosPerSecond: int := 1_000_000_000

  /** What fetchCurrentCpuAvgRate returns when the query or its response fails. */
  const FetchFailed: real := -1.0

  /** The command-line arguments; fixed for the life of the process. */
  datatype Config = Config(
    podName: string,
    cpuLimit: int,
    alertThreshold: int,
    alertCpuAvgRate: real,
    assessTotalSeconds: int,
    assessSilentSeconds: int,
    assessIntervalSeconds: int)

  const DefaultConfig: Config := Config(
    podName := "tuia-algo-engine-normal-prd-8484967c75-b58m5",
    cpuLimit := 8,
    alertThreshold := 5,
    alertCpuAvgRate := 35.0,
    assessTotalSeconds := 120,
    assessSilentSeconds := 120,
    assessIntervalSeconds := 15)

  /** The loop's local variables hits, assessTimestamp and silent. */
  datatype State = State(hits: nat, assessTimestamp: int, silent: bool)

  /** One iteration: the state it leaves, whether it sent the dump signal, how long it slept. */
  datatype Outcome = Outcome(next: State, fired: bool, pause: int)

  /** What an iteration observes: the clock, and the rate sample it fetches. */
  datatype Reading = Reading(now: int, rate: real)

  /** The state the goroutine starts in. */
  function Initial(now: int): State {
    State(0, now, false)
  }

  /** The sample taken at now still falls in the assessment window. */
  predicate InWindow(cfg: Config, s: State, now: int) {
    now - s.assessTimestamp < cfg.assessTotalSeconds * NanosPerSecond
  }

  predicate IsBreach(cfg: Config, rate: real) {
    rate > cfg.alertCpuAvgRate
  }

  /**
   * One pass of the loop body. A silent pass sleeps first and then starts a
   * fresh window at now (the clock read after the sleep). A sampling pass
   * counts the sample if the window is still open and restarts the window
   * otherwise, then fires when the count has reached the threshold and sleeps
   * for the interval when it has not.
   */
  function Step(cfg: Config, s: State, now: int, rate: real): Outcome {
    if s.silent then
      Outcome(Initial(now), false, cfg.assessSilentSeconds * NanosPerSecond)
    else
      var sampled :=
        if InWindow(cfg, s, now) then s.(hits := if IsBreach(cfg, rate) then s.hits + 1 else s.hits)
        else Initial(now);
      if sampled.hits >= cfg.alertThreshold then Outcome(sampled.(silent := true), true, 0)
      else Outcome(sampled, false, cfg.assessIntervalSeconds * NanosPerSecond)
  }

  /** The state after a sequence of iterations, and which of them fired. */
  function Run(cfg: Config, s: State, rs: seq<Reading>): (r: (State, seq<bool>))
    ensures |r.1| == |rs|
  {
    if rs == [] then (s, [])
    else
      var prev := Run(cfg, s, rs[..|rs| - 1]);
      var o := Step(cfg, prev.0, rs[|rs| - 1].now, rs[|rs| - 1].rate);
      (o.next, prev.1 + [o.fired])
  }

  /** The number of samples in rs above the alert rate. */
  function Breaches(cfg: Config, rs: seq<Reading>): nat {
    if rs == [] then 0
    else Breaches(cfg, rs[..|rs| - 1]) + if IsBreach(cfg, rs[|rs| - 1].rate) then 1 else 0
  }

  /**
   * The invariant of the loop for a threshold of at least one: while sampling
   * the count is below the threshold, while silent it is exactly the threshold.
   */
  predicate Inv(cfg: Config, s: State) {
    if s.silent then s.hits == cfg.alertThreshold else s.hits < cfg.alertThreshold
  }

  // ---- single iterations ----

  /** Inside the window a sample above the alert rate adds one hit; the window start stays. */
  lemma InWindowTick(cfg: Config, s: State, now: int, rate: real)
    requires !s.silent && InWindow(cfg, s, now)
    ensures var o := Step(cfg, s, now, rate);
      o.next.hits == (if rate > cfg.alertCpuAvgRate then s.hits + 1 else s.hits) &&
      o.next.assessTimestamp == s.assessTimestamp
  {
  }

  /** An expired window is restarted at now with no hits; that sample is not counted. */
  lemma ExpiredTick(cfg: Config, s: State, now: int, rate: real)
    requires !s.silent && now - s.assessTimestamp >= cfg.assessTotalSeconds * NanosPerSecond
    ensures var o := Step(cfg, s, now, rate);
      o.next.hits == 0 && o.next.assessTimestamp == now &&
      (cfg.alertThreshold >= 1 ==>
        !o.fired && !o.next.silent && o.pause == cfg.assessIntervalSeconds * NanosPerSecond)
  {
  }

  /**
   * A sampling pass fires exactly when the updated count has reached the
   * threshold, goes silent exactly when it fires, and otherwise sleeps for the
   * interval. Firing leaves the count as it is.
   */
  lemma SamplingFireRule(cfg: Config, s: State, now: int, rate: real)
    requires !s.silent
    ensures var o := Step(cfg, s, now, rate);
      (o.fired <==> o.next.hits >= cfg.alertThreshold) &&
      o.next.silent == o.fired &&
      o.pause == (if o.fired then 0 else cfg.assessIntervalSeconds * NanosPerSecond)
  {
  }

  /**
   * A silent pass never fires: it sleeps the silence period, then clears the
   * count and starts a window at now, whatever the count and sample were.
   */
  lemma SilentTick(cfg: Config, s: State, now: int, rate: real)
    requires s.silent
    ensures Step(cfg, s, now, rate) ==
      Outcome(State(0, now, false), false, cfg.assessSilentSeconds * NanosPerSecond)
  {
  }

  /** Every pass ends silent exactly when it fired. */
  lemma SilentIffFired(cfg: Config, s: State, now: int, rate: real)
    ensures Step(cfg, s, now, rate).next.silent == Step(cfg, s, now, rate).fired
  {
  }

  /**
   * A failed fetch inside the window changes neither the count nor the window
   * start, as long as the alert rate is not below the sentinel.
   */
  lemma FailedFetchTick(cfg: Config, s: State, now: int)
    requires !s.silent && InWindow(cfg, s, now) && cfg.alertCpuAvgRate >= FetchFailed
    ensures var o := Step(cfg, s, now, FetchFailed);
      o.next.hits == s.hits && o.next.assessTimestamp == s.assessTimestamp
  {
  }

  /** Each pass keeps the invariant, so hits stays within 0..alertThreshold. */
  lemma StepPreservesInv(cfg: Config, s: State, now: int, rate: real)
    requires cfg.alertThreshold >= 1 && Inv(cfg, s)
    ensures Inv(cfg, Step(cfg, s, now, rate).next)
    ensures Step(cfg, s, now, rate).next.hits <= cfg.alertThreshold
  {
  }

  // ---- sequences of iterations ----

  /** Over any sequence of iterations hits stays within 0..alertThreshold. */
  lemma {:induction false} RunPreservesInv(cfg: Config, s: State, rs: seq<Reading>)
    requires cfg.alertThreshold >= 1 && Inv(cfg, s)
    ensures Inv(cfg, Run(cfg, s, rs).0)
    ensures Run(cfg, s, rs).0.hits <= cfg.alertThreshold
  {
    if rs != [] {
      var prev := Run(cfg, s, rs[..|rs| - 1]);
      RunPreservesInv(cfg, s, rs[..|rs| - 1]);
      StepPreservesInv(cfg, prev.0, rs[|rs| - 1].now, rs[|rs| - 1].rate);
    }
  }

  /** The fired flags of a prefix of the readings are the prefix of the fired flags. */
  lemma {:induction false} RunPrefix(cfg: Config, s: State, rs: seq<Reading>, j: nat)
    requires j <= |rs|
    ensures Run(cfg, s, rs).1[..j] == Run(cfg, s, rs[..j]).1
    decreases |rs|
  {
    if j < |rs| {
      var front := rs[..|rs| - 1];
      RunPrefix(cfg, s, front, j);
      assert front[..j] == rs[..j];
      assert Run(cfg, s, rs).1[..|rs| - 1] == Run(cfg, s, front).1;
      assert Run(cfg, s, rs).1[..j] == Run(cfg, s, rs).1[..|rs| - 1][..j];
    } else {
      assert rs[..j] == rs;
    }
  }

  /** Pass i leaves the assessor silent exactly when it fired. */
  lemma SilentAfterPass(cfg: Config, s: State, rs: seq<Reading>, i: nat)
    requires i < |rs|
    ensures Run(cfg, s, rs[..i + 1]).0.silent == Run(cfg, s, rs).1[i]
  {
    var t := rs[..i + 1];
    RunPrefix(cfg, s, rs, i + 1);
    assert Run(cfg, s, rs).1[i] == Run(cfg, s, t).1[i];
    var prev := Run(cfg, s, t[..i]);
    SilentIffFired(cfg, prev.0, t[i].now, t[i].rate);
  }

  /**
   * The pass after a firing is a silent one: it does not fire, and it leaves
   * hits 0 and a fresh window at its own time, so no sample is evaluated in
   * between.
   */
  lemma PassAfterFiring(cfg: Config, s: State, rs: seq<Reading>, i: nat)
    requires i + 1 < |rs| && Run(cfg, s, rs).1[i]
    ensures !Run(cfg, s, rs).1[i + 1]
    ensures Run(cfg, s, rs[..i + 2]).0 == Initial(rs[i + 1].now)
  {
    SilentAfterPass(cfg, s, rs, i);
    var t := rs[..i + 2];
    assert t[..i + 1] == rs[..i + 1];
    var prev := Run(cfg, s, rs[..i + 1]);
    SilentTick(cfg, prev.0, rs[i + 1].now, rs[i + 1].rate);
    RunPrefix(cfg, s, rs, i + 2);
    assert Run(cfg, s, rs).1[i + 1] == Run(cfg, s, t).1[i + 1];
  }

  /**
   * Over a whole run: each pass leaves the assessor silent exactly when it
   * fired, a firing is always followed by a silent pass that clears hits and
   * opens a window, whatever state the run starts from.
   */
  lemma RunNeverFiresTwiceInARow(cfg: Config, s: State, rs: seq<Reading>)
    ensures var r := Run(cfg, s, rs);
      (forall i | 0 <= i < |rs| :: Run(cfg, s, rs[..i + 1]).0.silent == r.1[i]) &&
      (forall i | 0 <= i < |rs| - 1 :: r.1[i] ==>
        !r.1[i + 1] && Run(cfg, s, rs[..i + 2]).0 == Initial(rs[i + 1].now))
  {
    forall i | 0 <= i < |rs| ensures Run(cfg, s, rs[..i + 1]).0.silent == Run(cfg, s, rs).1[i] {
      SilentAfterPass(cfg, s, rs, i);
    }
    forall i | 0 <= i < |rs| - 1 && Run(cfg, s, rs).1[i]
      ensures !Run(cfg, s, rs).1[i + 1] && Run(cfg, s, rs[..i + 2]).0 == Initial(rs[i + 1].now)
    {
      PassAfterFiring(cfg, s, rs, i);
    }
  }

  /** All readings of rs fall in the window that s started. */
  predicate AllInWindow(cfg: Config, s: State, rs: seq<Reading>) {
    forall i | 0 <= i < |rs| :: InWindow(cfg, s, rs[i].now)
  }

  /**
   * Hits are counted whether or not the breaches are consecutive: while the
   * window is open and the threshold is not reached, the count grows by the
   * number of samples above the alert rate, the window start stays and
   * nothing fires.
   */
  lemma {:induction false} RunCountsBreaches(cfg: Config, s: State, rs: seq<Reading>)
    requires !s.silent && AllInWindow(cfg, s, rs)
    requires s.hits + Breaches(cfg, rs) < cfg.alertThreshold
    ensures Run(cfg, s, rs).0 == s.(hits := s.hits + Breaches(cfg, rs))
    ensures forall i | 0 <= i < |rs| :: !Run(cfg, s, rs).1[i]
  {
    if rs != [] {
      var front := rs[..|rs| - 1];
      assert AllInWindow(cfg, s, front) by {
        assert forall i | 0 <= i < |front| :: front[i] == rs[i];
      }
      RunCountsBreaches(cfg, s, front);
    }
  }

  /**
   * While the window is open, the breach that brings the count to the
   * threshold fires the signal and silences the assessor with the count
   * still at the threshold.
   */
  lemma RunFiresOnThreshold(cfg: Config, s: State, rs: seq<Reading>, r: Reading)
    requires !s.silent && AllInWindow(cfg, s, rs + [r])
    requires s.hits + Breaches(cfg, rs) + 1 == cfg.alertThreshold && IsBreach(cfg, r.rate)
    ensures Run(cfg, s, rs + [r]) == (State(cfg.alertThreshold, s.assessTimestamp, true), Run(cfg, s, rs).1 + [true])
    ensures forall i | 0 <= i < |rs| :: !Run(cfg, s, rs + [r]).1[i]
  {
    var rs' := rs + [r];
    assert rs'[..|rs'| - 1] == rs;
    assert AllInWindow(cfg, s, rs) by {
      assert forall i | 0 <= i < |rs| :: rs[i] == rs'[i];
    }
    assert InWindow(cfg, s, r.now) by {
      assert rs'[|rs|] == r;
    }
    RunCountsBreaches(cfg, s, rs);
  }

  // ---- the default configuration ----

  function Seconds(t: int): int {
    t * NanosPerSecond
  }

  /** Four readings above the alert rate at 10, 40, 70 and 100 seconds into the window. */
  function FourBreaches(): seq<Reading> {
    [Reading(Seconds(10), 50.0), Reading(Seconds(40), 50.0), Reading(Seconds(70), 50.0), Reading(Seconds(100), 50.0)]
  }

  lemma FourBreachesCount()
    ensures Breaches(DefaultConfig, FourBreaches()) == 4
    ensures AllInWindow(DefaultConfig, Initial(0), FourBreaches())
  {
    var cfg, rs := DefaultConfig, FourBreaches();
    assert Breaches(cfg, rs[..1]) == 1 by {
      assert rs[..1][..0] == [];
    }
    assert Breaches(cfg, rs[..2]) == 2 by {
      assert rs[..2][..1] == rs[..1];
    }
    assert Breaches(cfg, rs[..3]) == 3 by {
      assert rs[..3][..2] == rs[..2];
    }
    assert rs[..4] == rs;
  }

  /**
   * Five breaches inside the 120-second window fire once, at the fifth; the
   * count stays at five until the silent pass, which clears it and opens a
   * new window.
   */
  lemma FiveBreachesFireOnce(later: Reading)
    ensures Run(DefaultConfig, Initial(0), FourBreaches() + [Reading(Seconds(115), 50.0)]) ==
      (State(5, 0, true), [false, false, false, false, true])
    ensures Run(DefaultConfig, Initial(0), FourBreaches() + [Reading(Seconds(115), 50.0), later]) ==
      (Initial(later.now), [false, false, false, false, true, false])
  {
    var rs := FourBreaches();
    var r := Reading(Seconds(115), 50.0);
    FourBreachesCount();
    assert AllInWindow(DefaultConfig, Initial(0), rs + [r]) by {
      assert forall i | 0 <= i < |rs| :: (rs + [r])[i] == rs[i];
      assert (rs + [r])[4] == r;
    }
    RunFiresOnThreshold(DefaultConfig, Initial(0), rs, r);
    var fs := Run(DefaultConfig, Initial(0), rs + [r]).1;
    assert |fs| == 5 && !fs[0] && !fs[1] && !fs[2] && !fs[3] && fs[4];
    assert fs == [false, false, false, false, true];
    var rs' := rs + [r, later];
    assert rs'[..|rs'| - 1] == rs + [r];
    SilentTick(DefaultConfig, State(5, 0, true), later.now, later.rate);
    assert fs + [false] == [false, false, false, false, true, false];
  }

  /** Four breaches, then a pass at exactly 120 seconds: the window restarts with no hits and no signal. */
  lemma FourBreachesThenExpiry(rate: real)
    ensures Run(DefaultConfig, Initial(0), FourBreaches() + [Reading(Seconds(120), rate)]) ==
      (State(0, Seconds(120), false), [false, false, false, false, false])
  {
    var rs := FourBreaches();
    FourBreachesCount();
    RunCountsBreaches(DefaultConfig, Initial(0), rs);
    var rs' := rs + [Reading(Seconds(120), rate)];
    assert rs'[..|rs'| - 1] == rs;
    var prev := Run(DefaultConfig, Initial(0), rs);
    assert prev.0 == State(4, 0, false);
    var fs := prev.1;
    assert |fs| == 4 && !fs[0] && !fs[1] && !fs[2] && !fs[3];
    assert fs == [false, false, false, false];
    assert rs'[|rs'| - 1] == Reading(Seconds(120), rate);
    assert Step(DefaultConfig, prev.0, Seconds(120), rate) ==
      Outcome(State(0, Seconds(120), false), false, Seconds(15));
    assert Run(DefaultConfig, Initial(0), rs') == (State(0, Seconds(120), false), fs + [false]);
    assert fs + [false] == [false, false, false, false, false];
  }

  // ---- the goroutine's variables as an object ----

  /** The assessor goroutine: its three loop variables and the configuration it reads. */
  class CpuAssessor {
    const cfg: Config
    var hits: nat
    var assessTimestamp: int
    var silent: bool

    function Current(): State
      reads this
    {
      State(hits, assessTimestamp, silent)
    }

    ghost predicate Valid()
      reads this
    {
      cfg.alertThreshold >= 1 ==> Inv(cfg, Current())
    }

    /** Starts sampling with no hits and a window opened at now. */
    constructor (cfg: Config, now: int)
      ensures this.cfg == cfg && Current() == Initial(now) && Valid()
    {
      this.cfg := cfg;
      hits := 0;
      assessTimestamp := now;
      silent := false;
    }

    /** One iteration of the loop; fired stands for the send on the dump channel. */
    method Tick(now: int, rate: real) returns (fired: bool, pause: int)
      requires Valid()
      modifies this
      ensures Valid()
      ensures Outcome(Current(), fired, pause) == Step(cfg, old(Current()), now, rate)
    {
      ghost var before := Current();
      if silent {
        pause := cfg.assessSilentSeconds * NanosPerSecond;
        silent := false;
        hits := 0;
        assessTimestamp := now;
        fired := false;
      } else {
        var timeGap := now - assessTimestamp;
        if timeGap < cfg.assessTotalSeconds * NanosPerSecond {
          if rate > cfg.alertCpuAvgRate {
            hits := hits + 1;
          }
        } else {
          hits := 0;
          assessTimestamp := now;
        }
        if hits >= cfg.alertThreshold {
          fired := true;
          silent := true;
          pause := 0;
        } else {
          fired := false;
          pause := cfg.assessIntervalSeconds * NanosPerSecond;
        }
      }
      if cfg.alertThreshold >= 1 {
        StepPreservesInv(cfg, before, now, rate);
      }
    }

    /** Runs the loop over the given readings; fires[i] says whether iteration i signalled. */
    method Assess(readings: seq<Reading>) returns (fires: seq<bool>)
      requires Valid()
      modifies this
      ensures Valid()
      ensures (Current(), fires) == Run(cfg, old(Current()), readings)
    {
      fires := [];
      for i := 0 to |readings|
        invariant Valid()
        invariant (Current(), fires) == Run(cfg, old(Current()), readings[..i])
      {
        assert readings[..i + 1][..i] == readings[..i];
        var fired, _ := Tick(readings[i].now, readings[i].rate);
        fires := fires + [fired];
      }
      assert readings[..|readings|] == readings;
    }
  }
}
