/** One refresh: the command once, then the health command polled until it passes or its time is up.
    How long that can take, against the deadline stamped when the refresh was recorded. */
module RefreshBudget {
  import opened BoxRecord
  import opened Options

  /** One command call. It would need `need` seconds; it is killed at its timeout; starting, killing and
      sweeping up cost `over` on top, and the pause after it lasts `late` longer than asked for.
      `leftover`: a process of it could not be killed. */
  datatype Call = Call(need: Time, over: Time, late: Time, rc: int, leftover: bool)

  /** A call and the pause after it take at most `most` longer than they should. */
  predicate ValidCall(c: Call, most: Time) {
    0.0 <= c.need && 0.0 <= c.over && 0.0 <= c.late && c.over + c.late <= most
  }

  function Max(a: Time, b: Time): Time {
    if a <= b then b else a
  }

  function Took(c: Call, timeout: Time): Time {
    Min(c.need, timeout) + c.over
  }

  /** The exit code, or nothing when the call timed out or left a process behind. */
  function Rc(c: Call, timeout: Time): Option<int> {
    if c.need > timeout || c.leftover then None else Some(c.rc)
  }

  /** When the k-th health run starts, the first starting at `first`. */
  function HealthStart(k: nat, first: Time, cfg: Config, health: nat -> Call): Time {
    if k == 0 then first
    else
      var deadline := first + cfg.healthTimeoutS;
      var begun := HealthStart(k - 1, first, cfg, health);
      var ended := begun + Took(health(k - 1), Max(deadline - begun, 1.0));
      ended + Min(cfg.healthIntervalS, Max(deadline - ended, 0.0)) + health(k - 1).late
  }

  /** The k-th health run passes. */
  predicate Passes(k: nat, first: Time, cfg: Config, health: nat -> Call) {
    var deadline := first + cfg.healthTimeoutS;
    Rc(health(k), Max(deadline - HealthStart(k, first, cfg, health), 1.0)) == Some(0)
  }

  /** The k-th health run takes place: the deadline has not come, and none passed before it. */
  predicate Happens(k: nat, first: Time, cfg: Config, health: nat -> Call) {
    && HealthStart(k, first, cfg, health) < first + cfg.healthTimeoutS
    && forall j: nat {:trigger Passes(j, first, cfg, health)} :: j < k ==> !Passes(j, first, cfg, health)
  }

  function Ceil(x: real): (n: int)
    ensures x <= n as real < x + 1.0
  {
    if x.Floor as real == x then x.Floor else x.Floor + 1
  }

  function MostRuns(cfg: Config): int
    requires ValidConfig(cfg)
  {
    Ceil(cfg.healthTimeoutS / cfg.healthIntervalS)
  }

  lemma BelowCeil(k: nat, interval: real, total: real)
    requires 0.0 < interval && k as real * interval < total
    ensures k < Ceil(total / interval)
  {
    AboveQuotient(k as real, interval, total);
  }

  lemma AboveQuotient(k: real, interval: real, total: real)
    requires 0.0 < interval && k * interval < total
    ensures k < total / interval
  {
    var x := total / interval;
    assert x * interval == total;
    assert (x - k) * interval > 0.0;
  }

  /** The time `k` full pauses take. */
  function Pauses(k: nat, cfg: Config): Time {
    if k == 0 then 0.0 else Pauses(k - 1, cfg) + cfg.healthIntervalS
  }

  lemma {:induction false} PausesMultiply(k: nat, cfg: Config)
    ensures Pauses(k, cfg) == k as real * cfg.healthIntervalS
  {
    if 0 < k {
      PausesMultiply(k - 1, cfg);
      Distributes((k - 1) as real, cfg.healthIntervalS);
    }
  }

  lemma Distributes(a: real, b: real)
    ensures (a + 1.0) * b == a * b + b
  {
  }

  lemma RunsBounded(k: nat, cfg: Config)
    requires ValidConfig(cfg) && Pauses(k, cfg) < cfg.healthTimeoutS
    ensures k < MostRuns(cfg)
  {
    PausesMultiply(k, cfg);
    BelowCeil(k, cfg.healthIntervalS, cfg.healthTimeoutS);
  }

  /** No health run that takes place has passed in the first `runs`. */
  ghost predicate NonePassed(runs: nat, first: Time, cfg: Config, health: nat -> Call) {
    forall j: nat {:trigger Passes(j, first, cfg, health)} :: j < runs ==> !Passes(j, first, cfg, health)
  }

  /** Some health run that starts in time passes. */
  ghost predicate SomePasses(first: Time, cfg: Config, health: nat -> Call) {
    exists k: nat :: Happens(k, first, cfg, health) && Passes(k, first, cfg, health)
  }

  /** A failed run and the pause after it end by the deadline plus the grace of one call, and bring the
      clock a whole interval forward unless the deadline is reached first. */
  lemma RunAdvances(k: nat, first: Time, cfg: Config, health: nat -> Call, most: Time)
    requires ValidConfig(cfg) && 0.0 <= most && ValidCall(health(k), most)
    requires HealthStart(k, first, cfg, health) < first + cfg.healthTimeoutS
    requires first + Pauses(k, cfg) <= HealthStart(k, first, cfg, health)
    ensures var deadline, next := first + cfg.healthTimeoutS, HealthStart(k + 1, first, cfg, health);
      && HealthStart(k, first, cfg, health) <= next <= deadline + 1.0 + most
      && (next < deadline ==> first + Pauses(k + 1, cfg) <= next)
  {
    var deadline := first + cfg.healthTimeoutS;
    var begun := HealthStart(k, first, cfg, health);
    var ended := begun + Took(health(k), Max(deadline - begun, 1.0));
    var pause := Min(cfg.healthIntervalS, Max(deadline - ended, 0.0));
    assert begun <= ended <= deadline + 1.0 + health(k).over;
    assert HealthStart(k + 1, first, cfg, health) == ended + pause + health(k).late;
  }

  /** A command succeeds exactly if it exits with 0 within its time-out and leaves no process behind. */
  lemma SucceedsIff(c: Call, timeout: Time)
    ensures Rc(c, timeout) == Some(0) <==> c.rc == 0 && !c.leftover && c.need <= timeout
  {
  }

  function NextStart(end: Time, deadline: Time, interval: Time): Time {
    if deadline <= end then end else if end + interval <= deadline then end + interval else deadline
  }

  /** A health run has the time that is left, but at least one second; the first starts at once, and the next
      one whole interval after the end of the one before, or at the deadline if that comes first. */
  lemma HealthRunsAre(k: nat, first: Time, cfg: Config, health: nat -> Call)
    requires ValidConfig(cfg)
    ensures var s, deadline := HealthStart(k, first, cfg, health), first + cfg.healthTimeoutS;
      var limit := if s + 1.0 <= deadline then deadline - s else 1.0;
      var end := s + ((if health(k).need <= limit then health(k).need else limit) + health(k).over);
      var again := NextStart(end, deadline, cfg.healthIntervalS);
      && HealthStart(0, first, cfg, health) == first
      && HealthStart(k + 1, first, cfg, health) == again + health(k).late
      && (Passes(k, first, cfg, health) <==> health(k).rc == 0 && !health(k).leftover && health(k).need <= limit)
  {
    var s, deadline := HealthStart(k, first, cfg, health), first + cfg.healthTimeoutS;
    var end := s + Took(health(k), Max(deadline - s, 1.0));
    var pause := Min(cfg.healthIntervalS, Max(deadline - end, 0.0));
    assert HealthStart(k + 1, first, cfg, health) == end + pause + health(k).late;
    assert end + pause == NextStart(end, deadline, cfg.healthIntervalS);
  }

  method RunHealth(cfg: Config, first: Time, health: nat -> Call, most: Time)
    returns (ok: bool, now: Time, runs: nat)
    requires ValidConfig(cfg) && 0.0 <= most
    requires forall k: nat :: ValidCall(health(k), most)
    ensures first <= now <= first + cfg.healthTimeoutS + 1.0 + most
    ensures runs <= MostRuns(cfg)
    ensures ok <==> SomePasses(first, cfg, health)
  {
    var deadline := first + cfg.healthTimeoutS;
    now, runs := first, 0;
    while true
      invariant now == HealthStart(runs, first, cfg, health)
      invariant first <= now <= deadline + 1.0 + most
      invariant now < deadline ==> first + Pauses(runs, cfg) <= now
      invariant NonePassed(runs, first, cfg, health)
      invariant runs <= MostRuns(cfg)
      decreases MostRuns(cfg) - runs
    {
      var remaining := deadline - now;
      if remaining <= 0.0 {
        TooLate(runs, first, cfg, health, most);
        return false, now, runs;
      }
      RunsBounded(runs, cfg);
      assert ValidCall(health(runs), most);
      RunAdvances(runs, first, cfg, health, most);
      var timeout := Max(remaining, 1.0);
      var rc := Rc(health(runs), timeout);
      now := now + Took(health(runs), timeout);
      if rc == Some(0) {
        assert Passes(runs, first, cfg, health) && Happens(runs, first, cfg, health);
        return true, now, runs + 1;
      }
      now := now + Min(cfg.healthIntervalS, Max(deadline - now, 0.0)) + health(runs).late;
      runs := runs + 1;
    }
  }

  /** No reclaim kills the recorded refresh as stuck, and one that finds its lock busy leaves it alone. */
  predicate LeftAlone(r: Rec, env: Env) {
    && !KillsOwners(r, env)
    && (r.refresh.Some? && env.probe.Busy? ==> RefreshEnds(r.refresh.value, env) == None)
  }

  /** Whatever refresh was recorded before this one ran from `start` on: if each call and pause overran by
      at most `most`, every reclaim leaves it alone, whatever the lock probe would have said, as long as the
      delay of the start, the overruns and the time since `until` fit into the margin. */
  ghost predicate NeverStuck(cfg: Config, start: Time, most: Time, until: Time) {
    forall r: Rec, token: string, pid: int, force: bool, stamped: Time, env: Env
      {:trigger LeftAlone(StartRefresh(r, token, pid, force, cfg, stamped).rec, env)} ::
      StartRefresh(r, token, pid, force, cfg, stamped).answer == RefreshBegun
      && 2.0 * most + 1.0 + (start - stamped) + Max(env.now - until, 0.0) <= REFRESH_MARGIN_S
      ==> LeftAlone(StartRefresh(r, token, pid, force, cfg, stamped).rec, env)
  }

  lemma LiveRefreshIsNeverStuck(cfg: Config, start: Time, most: Time, until: Time)
    requires ValidConfig(cfg)
    requires until <= start + cfg.refreshTimeoutS + cfg.healthTimeoutS + 2.0 * most + 1.0
    ensures NeverStuck(cfg, start, most, until)
  {
    forall r: Rec, token: string, pid: int, force: bool, stamped: Time, env: Env
      {:trigger LeftAlone(StartRefresh(r, token, pid, force, cfg, stamped).rec, env)} |
      StartRefresh(r, token, pid, force, cfg, stamped).answer == RefreshBegun
      && 2.0 * most + 1.0 + (start - stamped) + Max(env.now - until, 0.0) <= REFRESH_MARGIN_S
      ensures LeftAlone(StartRefresh(r, token, pid, force, cfg, stamped).rec, env)
    {
      assert StartRefresh(r, token, pid, force, cfg, stamped).rec.refresh.value.deadline == stamped + Budget(cfg);
    }
  }

  method RunRefresh(cfg: Config, hasHealth: bool, start: Time, command: Call, health: nat -> Call, most: Time)
    returns (ok: bool, now: Time, runs: nat)
    requires ValidConfig(cfg) && 0.0 <= most
    requires ValidCall(command, most) && forall k: nat :: ValidCall(health(k), most)
    ensures start <= now
    ensures now <= start + cfg.refreshTimeoutS + cfg.healthTimeoutS + 2.0 * most + 1.0
    ensures runs <= MostRuns(cfg)
    ensures ok <==>
      && Rc(command, cfg.refreshTimeoutS) == Some(0)
      && (hasHealth ==> SomePasses(start + Took(command, cfg.refreshTimeoutS), cfg, health))
    ensures NeverStuck(cfg, start, most, now)
  {
    now, runs := start + Took(command, cfg.refreshTimeoutS), 0;
    MostRunsPositive(cfg);
    LiveRefreshIsNeverStuck(cfg, start, most, now);
    if Rc(command, cfg.refreshTimeoutS) != Some(0) {
      return false, now, 0;
    }
    if !hasHealth {
      return true, now, 0;
    }
    ok, now, runs := RunHealth(cfg, now, health, most);
    LiveRefreshIsNeverStuck(cfg, start, most, now);
  }

  lemma MostRunsPositive(cfg: Config)
    requires ValidConfig(cfg)
    ensures 0 < MostRuns(cfg)
  {
    BelowCeil(0, cfg.healthIntervalS, cfg.healthTimeoutS);
  }

  lemma TooLate(runs: nat, first: Time, cfg: Config, health: nat -> Call, most: Time)
    requires ValidConfig(cfg) && forall i: nat :: ValidCall(health(i), most)
    requires first + cfg.healthTimeoutS <= HealthStart(runs, first, cfg, health)
    requires NonePassed(runs, first, cfg, health)
    ensures !SomePasses(first, cfg, health)
  {
    forall k: nat | Happens(k, first, cfg, health) ensures !Passes(k, first, cfg, health) {
      if runs <= k {
        StartsAscend(runs, k, cfg, first, health, most);
      }
    }
  }

  lemma {:induction false} StartsAscend(j: nat, k: nat, cfg: Config, first: Time, health: nat -> Call, most: Time)
    requires j <= k
    requires ValidConfig(cfg) && forall i: nat :: ValidCall(health(i), most)
    ensures HealthStart(j, first, cfg, health) <= HealthStart(k, first, cfg, health)
  {
    if j < k {
      StartsAscend(j, k - 1, cfg, first, health, most);
      assert ValidCall(health(k - 1), most);
    }
  }
}
