/** What the decision log says of a run. A process can die between saving the file and appending its lines,
    so the log may lack some; which of them its readers cannot do without is proved here. */
module BoxLog {
  import opened BoxRecord
  import opened BoxInvariant
  import opened BoxDebt
  import opened BoxFifo
  import opened BoxRuns
  import opened RefreshProtocol
  import opened Options
  import Seqs

  // ---------------------------------------------------------------------------
  // the log is part of the history
  // ---------------------------------------------------------------------------

  lemma {:induction false} SubsequenceGrows<T>(s: seq<T>, t: seq<T>, more: seq<T>, k: nat)
    requires Subsequence(s, t) && k <= |more|
    ensures Subsequence(s + more[..k], t + more)
  {
    if more == [] {
      assert s + more[..k] == s && t + more == t;
    } else {
      var n := |more| - 1;
      var u := t + more;
      assert u[..|u| - 1] == t + more[..n] && u[|u| - 1] == more[n];
      if k == |more| {
        SubsequenceGrows(s, t, more[..n], n);
        var r := s + more[..k];
        assert r[..|r| - 1] == s + more[..n][..n] && r[|r| - 1] == more[n];
      } else {
        SubsequenceGrows(s, t, more[..n], k);
        assert more[..n][..k] == more[..k];
      }
    }
  }

  lemma FirstLinesAre(events: seq<Event>, logged: nat) returns (k: nat)
    ensures k <= |events| && FirstLines(events, logged) == events[..k]
  {
    k := if logged < |events| then logged else |events|;
  }

  lemma LogStep(w: World, s: Step, cfg: Config)
    requires Subsequence(w.log, w.history)
    ensures Subsequence(Next(w, s, cfg).log, Next(w, s, cfg).history)
  {
    if Enabled(w, s, cfg) {
      if Transacts(s) {
        StepIsTransaction(w, s, cfg);
        var events := Transact(w.disk, OpOf(w, s, cfg), cfg, EnvOf(w, s, cfg)).events;
        var k := FirstLinesAre(events, s.logged);
        SubsequenceGrows(w.log, w.history, events, k);
      } else {
        OtherStepsLogNothing(w, s, cfg);
        SubsequenceGrows(w.log, w.history, [Corrupted], 0);
        assert w.log + [Corrupted][..0] == w.log;
      }
    }
  }

  /** In every run the log holds only what happened, once each and in order. */
  lemma {:induction false} LogIsPartOfHistory(steps: seq<Step>, cfg: Config)
    ensures Subsequence(Run(steps, cfg).log, Run(steps, cfg).history)
  {
    if steps != [] {
      LogIsPartOfHistory(steps[..|steps| - 1], cfg);
      LogStep(Run(steps[..|steps| - 1], cfg), steps[|steps| - 1], cfg);
    }
  }

  /** The history without the marks of damage, which nobody logs. */
  function Loggable(past: seq<Event>): seq<Event> {
    if past == [] then []
    else Loggable(past[..|past| - 1]) + (if past[|past| - 1] == Corrupted then [] else [past[|past| - 1]])
  }

  lemma {:induction false} LoggableGrows(past: seq<Event>, events: seq<Event>)
    requires Corrupted !in events
    ensures Loggable(past + events) == Loggable(past) + events
  {
    if events == [] {
      Seqs.Nothing(past);
      Seqs.Nothing(Loggable(past));
    } else {
      var n := |events| - 1;
      assert (past + events)[..|past + events| - 1] == past + events[..n];
      LoggableGrows(past, events[..n]);
      Seqs.LastOf(events);
      Seqs.Assoc(Loggable(past), events[..n], [events[n]]);
    }
  }

  lemma ApplyLines(r: Rec, op: Op, cfg: Config, now: Time)
    ensures Corrupted !in Apply(r, op, cfg, now).events
    ensures RefreshOk in Apply(r, op, cfg, now).events ==>
      op.DoFinish? && Apply(r, op, cfg, now).rec.status == Pristine
  {
  }

  /** No transaction logs a damage, and one that logs a success leaves a pristine box. */
  lemma TransactLines(disk: Disk, op: Op, cfg: Config, env: Env)
    requires DiskOk(disk) && Accepts(op, cfg)
    ensures var out := Transact(disk, op, cfg, env);
      Corrupted !in out.events && (RefreshOk in out.events ==> op.DoFinish? && StatusOn(out.disk) == Pristine)
  {
    var reaped := Reap(Load(disk, env.now), cfg, env);
    var applied := Apply(reaped.rec, op, cfg, env.now);
    ReapLines(Load(disk, env.now), cfg, env);
    ApplyLines(reaped.rec, op, cfg, env.now);
    TransactKeeps(disk, op, cfg, env);
    forall e | e in {Corrupted, RefreshOk}
      ensures e in Transact(disk, op, cfg, env).events ==> e in applied.events
    {
      Seqs.InConcat(LoadEvents(disk), reaped.events, e);
      Seqs.InConcat(LoadEvents(disk) + reaped.events, applied.events, e);
    }
  }

  /** The transaction of a step, if it has one, lives to append all its lines. */
  ghost predicate LogsAll(w: World, s: Step, cfg: Config) {
    LostLines(w, s, cfg) == []
  }

  /** The lines of a transaction that died before it appended them. */
  ghost function LostLines(w: World, s: Step, cfg: Config): seq<Event> {
    if Enabled(w, s, cfg) && Transacts(s) then
      var events := Transact(w.disk, OpOf(w, s, cfg), cfg, EnvOf(w, s, cfg)).events;
      events[|FirstLines(events, s.logged)|..]
    else []
  }

  ghost predicate LogsAllRun(steps: seq<Step>, cfg: Config) {
    steps == [] || (
    && LogsAllRun(steps[..|steps| - 1], cfg)
    && LogsAll(Run(steps[..|steps| - 1], cfg), steps[|steps| - 1], cfg))
  }

  lemma DamageIsNotLoggable(past: seq<Event>)
    ensures Loggable(past + [Corrupted]) == Loggable(past)
  {
    assert (past + [Corrupted])[..|past|] == past;
    Seqs.Nothing(Loggable(past));
  }

  lemma NoneLost(events: seq<Event>, logged: nat)
    ensures events[|FirstLines(events, logged)|..] == [] ==> FirstLines(events, logged) == events
  {
  }

  lemma LoggableStep(w: World, s: Step, cfg: Config)
    requires FileInv(w, cfg) && LogsAll(w, s, cfg) && w.log == Loggable(w.history)
    ensures Next(w, s, cfg).log == Loggable(Next(w, s, cfg).history)
  {
    if Enabled(w, s, cfg) {
      if Transacts(s) {
        StepIsTransaction(w, s, cfg);
        var events := Transact(w.disk, OpOf(w, s, cfg), cfg, EnvOf(w, s, cfg)).events;
        TransactLines(w.disk, OpOf(w, s, cfg), cfg, EnvOf(w, s, cfg));
        NoneLost(events, s.logged);
        LoggableGrows(w.history, events);
      } else {
        OtherStepsLogNothing(w, s, cfg);
        DamageIsNotLoggable(w.history);
      }
    }
  }

  /** If no transaction dies before it has appended its lines, the log is the history, damage apart. */
  lemma {:induction false} LogIsTheHistory(steps: seq<Step>, cfg: Config)
    requires ValidConfig(cfg) && LogsAllRun(steps, cfg)
    ensures Run(steps, cfg).log == Loggable(Run(steps, cfg).history)
  {
    if steps != [] {
      var front := steps[..|steps| - 1];
      LogIsTheHistory(front, cfg);
      BaseRunKeeps(front, cfg);
      LoggableStep(Run(front, cfg), steps[|steps| - 1], cfg);
    }
  }

  // ---------------------------------------------------------------------------
  // a dirtied box is refreshed before it is taken, read off the log
  // ---------------------------------------------------------------------------

  /** The one loss that matters: a REFRESH-OK goes missing from a log that says a refresh is owed. */
  ghost predicate KeepsOk(w: World, s: Step, cfg: Config) {
    RefreshOk in LostLines(w, s, cfg) ==> !Debt(false, Next(w, s, cfg).log)
  }

  ghost predicate KeepsOkRun(steps: seq<Step>, cfg: Config) {
    steps == [] || (
    && KeepsOkRun(steps[..|steps| - 1], cfg)
    && KeepsOk(Run(steps[..|steps| - 1], cfg), steps[|steps| - 1], cfg))
  }

  ghost predicate LogInv(w: World) {
    Paid(false, w.log) && (Debt(false, w.log) ==> Debt(false, w.history))
  }

  lemma {:induction false} DebtGrows(a: bool, b: bool, events: seq<Event>)
    requires a ==> b
    ensures Debt(a, events) ==> Debt(b, events)
  {
    if events != [] { DebtGrows(a, b, events[..|events| - 1]); }
  }

  lemma {:induction false} DebtStays(events: seq<Event>)
    requires RefreshOk !in events
    ensures Debt(true, events)
  {
    if events != [] {
      Seqs.TakeHas(events, |events| - 1);
      DebtStays(events[..|events| - 1]);
    }
  }

  lemma PaidFewer(a: bool, b: bool, events: seq<Event>, k: nat)
    requires (a ==> b) && Paid(b, events) && k <= |events|
    ensures Paid(a, events[..k])
  {
    forall j | 0 <= j < k && events[..k][j].Taken? ensures !Debt(a, events[..k][..j]) {
      assert events[..k][..j] == events[..j] && events[j].Taken?;
      DebtGrows(a, b, events[..j]);
    }
  }

  /** A log that owes only if a refresh is owed stays so when the first `k` of some lines are appended. */
  lemma LogGrowsInStep(log: seq<Event>, past: seq<Event>, events: seq<Event>, k: nat)
    requires k <= |events| && Paid(false, log) && (Debt(false, log) ==> Debt(false, past))
    requires Paid(Debt(false, past), events)
    requires RefreshOk in events[k..] ==> !Debt(false, log + events[..k])
    ensures Paid(false, log + events[..k])
    ensures Debt(false, log + events[..k]) ==> Debt(false, past + events)
  {
    PaidFewer(Debt(false, log), Debt(false, past), events, k);
    PaidConcat(false, log, events[..k]);
    DebtConcat(false, log, events[..k]);
    DebtConcat(false, past, events);
    if Debt(false, log + events[..k]) {
      DebtStays(events[k..]);
      DebtConcat(Debt(false, log), events[..k], events[k..]);
      Seqs.TakeDrop(events, k);
      DebtGrows(Debt(false, log), Debt(false, past), events);
    }
  }

  lemma LogInvKept(w: World, s: Step, cfg: Config)
    requires FileInv(w, cfg) && DebtInv(w) && LogInv(w) && Safe(w, s) && KeepsOk(w, s, cfg)
    ensures LogInv(Next(w, s, cfg))
  {
    if Enabled(w, s, cfg) {
      if Transacts(s) {
        StepIsTransaction(w, s, cfg);
        var op, env := OpOf(w, s, cfg), EnvOf(w, s, cfg);
        var events := Transact(w.disk, op, cfg, env).events;
        TransactSettles(w.disk, op, cfg, env);
        var k := FirstLinesAre(events, s.logged);
        LogGrowsInStep(w.log, w.history, events, k);
      } else {
        OtherStepsLogNothing(w, s, cfg);
        DebtConcat(false, w.history, [Corrupted]);
        OneEvent(Debt(false, w.history), Corrupted);
      }
    }
  }

  lemma {:induction false} LogInvOverRuns(steps: seq<Step>, cfg: Config)
    requires ValidConfig(cfg) && SafeRun(steps, cfg) && KeepsOkRun(steps, cfg)
    ensures LogInv(Run(steps, cfg))
  {
    if steps != [] {
      var front := steps[..|steps| - 1];
      LogInvOverRuns(front, cfg);
      RunKeeps(front, cfg);
      LogInvKept(Run(front, cfg), steps[|steps| - 1], cfg);
    }
  }

  /** Between any line of the log that dirties the box and any later TAKE there is a REFRESH-OK. */
  lemma LogShowsRefreshBeforeTake(steps: seq<Step>, cfg: Config, i: nat, j: nat)
    requires ValidConfig(cfg) && SafeRun(steps, cfg) && KeepsOkRun(steps, cfg)
    requires var log := Run(steps, cfg).log; i < j < |log| && Dirties(log[i]) && log[j].Taken?
    ensures exists k :: i < k < j && Run(steps, cfg).log[k] == RefreshOk
  {
    LogInvOverRuns(steps, cfg);
    var log := Run(steps, cfg).log;
    if forall k :: i < k < j ==> log[k] != RefreshOk {
      DebtLasts(false, log[..j], i);
    }
  }

  /** A lane asks for the box, gets it, and all lines of the transaction are appended. */
  ghost predicate TakesInFull(w: World, s: Step, cfg: Config) {
    && s.Request? && s.op.DoTake? && Enabled(w, s, cfg) && LogsAll(w, s, cfg)
    && Taken(s.op.lane) in Transact(w.disk, s.op, cfg, EnvOf(w, s, cfg)).events
  }

  /** A step that loses such a REFRESH-OK leaves a pristine box, and then any lane can take it at once, with a
      TAKE in the log that has no REFRESH-OK before it. */
  lemma LostOkBreaksTheLog(w: World, s: Step, lane: string, cfg: Config) returns (take: Step)
    requires ValidConfig(cfg) && FileInv(w, cfg) && !KeepsOk(w, s, cfg) && IsLane(lane)
    ensures StatusOn(Next(w, s, cfg).disk) == Pristine
    ensures TakesInFull(Next(w, s, cfg), take, cfg) && take.op.lane == lane
    ensures !Paid(false, Next(Next(w, s, cfg), take, cfg).log)
  {
    LostOkIsPristine(w, s, cfg);
    take := SomeLaneTakes(Next(w, s, cfg), lane, cfg);
    TakeStepBreaks(Next(w, s, cfg), take, cfg);
  }

  /** A process of which no entry of the queue speaks. */
  lemma {:induction false} NewPid(q: seq<Entry>) returns (pid: int)
    ensures pid > 1 && forall e :: e in q ==> e.pid < pid
  {
    if q == [] {
      pid := 2;
    } else {
      var n := |q| - 1;
      var below := NewPid(q[..n]);
      pid := if q[n].pid < below then below else q[n].pid + 1;
      Seqs.LastOf(q);
      Seqs.SnocAt(q[..n], q[n]);
    }
  }

  lemma {:induction false} AllLapse(q: seq<Entry>, cfg: Config, env: Env)
    requires forall e :: e in q ==> Lapsed(e, cfg, env)
    ensures Survivors(q, cfg, env) == []
  {
    if q != [] {
      Seqs.TakeHas(q, |q| - 1);
      AllLapse(q[..|q| - 1], cfg, env);
    }
  }

  /** From any pristine box some take succeeds: when all who wait are gone, whoever asks gets it. */
  lemma SomeLaneTakes(w: World, lane: string, cfg: Config) returns (take: Step)
    requires ValidConfig(cfg) && cfg.hasRefresh && DiskOk(w.disk) && StatusOn(w.disk) == Pristine && IsLane(lane)
    ensures TakesInFull(w, take, cfg) && take.op.lane == lane
  {
    var pid := NewPid(QueueOn(w.disk));
    var op := DoTake(lane, pid, cfg.maxHoldS);
    var logged := |QueueOn(w.disk)| + 2;
    take := Request(op, 0.0, {pid}, {}, [], [], logged);
    LoadIsConsistent(w.disk, 0.0);
    assert AfterKill(w, 0.0, {}) == w;
    GoneQueueIsTaken(w.disk, op, cfg, EnvOf(w, take, cfg));
  }

  lemma GoneQueueIsTaken(disk: Disk, op: Op, cfg: Config, env: Env)
    requires DiskOk(disk) && StatusOn(disk) == Pristine && op.DoTake?
    requires env.alive == {op.pid} && forall e :: e in QueueOn(disk) ==> e.pid != op.pid
    ensures var events := Transact(disk, op, cfg, env).events;
      Taken(op.lane) in events && |events| <= |QueueOn(disk)| + 2
  {
    var r := Load(disk, env.now);
    LoadIsConsistent(disk, env.now);
    assert r.queue == QueueOn(disk);
    AllLapse(r.queue, cfg, env);
    SurvivorsAreEntries(r.queue, cfg, env);
    var reaped := Reap(r, cfg, env);
    assert reaped.rec == r.(queue := []) && reaped.events == Drops(r.queue, cfg, env);
    var applied := Apply(reaped.rec, op, cfg, env.now);
    assert applied.events == [Enqueued(op.lane)] + [Taken(op.lane)];
    assert LoadEvents(disk) == [];
    Seqs.InConcat(reaped.events, applied.events, Taken(op.lane));
  }

  lemma LostOkIsPristine(w: World, s: Step, cfg: Config)
    requires ValidConfig(cfg) && FileInv(w, cfg) && RefreshOk in LostLines(w, s, cfg)
    ensures StatusOn(Next(w, s, cfg).disk) == Pristine && FileInv(Next(w, s, cfg), cfg) && cfg.hasRefresh
  {
    StepIsTransaction(w, s, cfg);
    TransactLines(w.disk, OpOf(w, s, cfg), cfg, EnvOf(w, s, cfg));
    FileKept(w, s, cfg);
  }

  lemma TakeStepBreaks(w: World, take: Step, cfg: Config)
    requires FileInv(w, cfg) && Debt(false, w.log) && TakesInFull(w, take, cfg)
    ensures !Paid(false, Next(w, take, cfg).log)
  {
    StepIsTransaction(w, take, cfg);
    var out := Transact(w.disk, take.op, cfg, EnvOf(w, take, cfg));
    TransactLines(w.disk, take.op, cfg, EnvOf(w, take, cfg));
    TakeAmongLines(w.log, out.events, Taken(take.op.lane));
  }

  lemma TakeAmongLines(log: seq<Event>, events: seq<Event>, take: Event)
    requires Debt(false, log) && take in events && take.Taken? && RefreshOk !in events
    ensures !Paid(false, log + events)
  {
    var j :| 0 <= j < |events| && events[j] == take;
    var all := log + events;
    assert all[..|log| + j] == log + events[..j] && all[|log| + j].Taken?;
    Seqs.TakeHas(events, j);
    DebtStays(events[..j]);
    DebtConcat(false, log, events[..j]);
  }

  /** The refresh CLI dies between saving its success and logging it, and the next lane's TAKE follows the
      REFRESH-START directly. No damage is needed for it. */
  lemma LostOkHappens(lane: string, pid: int, now: Time, cfg: Config)
    requires ValidConfig(cfg) && cfg.hasRefresh && Accepts(DoTake(lane, pid, cfg.leaseS), cfg)
    ensures var end := End(1, true, "", 0.0, {}, 0);
      var take := Request(DoTake(lane, pid, cfg.leaseS), now, {pid}, {}, [], [], 2);
      var steps := UnderWay() + [Sweep(1, {2}, {}, true)] + [end] + [take];
      && SafeRun(steps, cfg)
      && Run(steps, cfg).history == [RefreshStarted(Pristine), RefreshOk, Enqueued(lane), Taken(lane)]
      && Run(steps, cfg).log == [RefreshStarted(Pristine), Enqueued(lane), Taken(lane)]
  {
    EndedWorld(cfg);
    var ended := UnderWay() + [Sweep(1, {2}, {}, true)] + [End(1, true, "", 0.0, {}, 0)];
    ThenTaken(ended, lane, pid, now, cfg);
  }

  lemma EndedWorld(cfg: Config)
    requires ValidConfig(cfg) && cfg.hasRefresh
    ensures var steps := UnderWay() + [Sweep(1, {2}, {}, true)] + [End(1, true, "", 0.0, {}, 0)];
      var w := Run(steps, cfg);
      && SafeRun(steps, cfg)
      && StatusOn(w.disk) == Pristine && QueueOn(w.disk) == [] && DiskOk(w.disk)
      && w.history == [RefreshStarted(Pristine), RefreshOk] && w.log == [RefreshStarted(Pristine)]
  {
    var end := End(1, true, "", 0.0, {}, 0);
    var swept := UnderWay() + [Sweep(1, {2}, {}, true)];
    SweptWorld(cfg);
    RunOneMore(swept, end, cfg);
    BaseRunKeeps(swept, cfg);
    EndSucceeds(Run(swept, cfg), end, cfg);
    Seqs.Nothing(Run(swept, cfg).log);
  }

  lemma SweptWorld(cfg: Config)
    requires ValidConfig(cfg) && cfg.hasRefresh
    ensures var w, u := Run(UnderWay() + [Sweep(1, {2}, {}, true)], cfg), Run(UnderWay(), cfg);
      && SafeRun(UnderWay() + [Sweep(1, {2}, {}, true)], cfg)
      && w.procs == map[1 := Cli(0, Settled("t", true))]
      && w.disk == u.disk && w.history == w.log == [RefreshStarted(Pristine)]
      && Readable(w.disk)
      && w.disk.rec.status == Refreshing && w.disk.rec.queue == []
      && w.disk.rec.refresh.Some? && w.disk.rec.refresh.value.token == "t"
  {
    UnderWayWorld(cfg);
    RunOneMore(UnderWay(), Sweep(1, {2}, {}, true), cfg);
    var u := Run(UnderWay(), cfg);
    assert Owns(u, 2);
    assert Without(u, {2}).procs == map[1 := Cli(0, Running("t"))];
  }
}
