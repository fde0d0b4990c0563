/** What holds over every run of the shared box. */
module BoxRuns {
  import opened BoxRecord
  import opened BoxInvariant
  import opened BoxDebt
  import opened BoxLease
  import opened BoxFifo
  import opened RefreshProtocol
  import opened BoxWork
  import opened BoxLaws
  import opened Options
  import Seqs

  // ---------------------------------------------------------------------------
  // a dirtied box is refreshed before it is taken
  // ---------------------------------------------------------------------------

  /** Between anything that dirties the box (a dirty release, a reclaimed hold, a refresh started, lost
      or failed, a damaged file) and any later take, a refresh has succeeded. */
  lemma RefreshedBeforeTaken(steps: seq<Step>, cfg: Config, i: nat, j: nat)
    requires ValidConfig(cfg) && SafeRun(steps, cfg)
    requires var past := Run(steps, cfg).history; i < j < |past| && Dirties(past[i]) && past[j].Taken?
    ensures exists k :: i < k < j && Run(steps, cfg).history[k] == RefreshOk
  {
    RunKeeps(steps, cfg);
    var past := Run(steps, cfg).history;
    if forall k :: i < k < j ==> past[k] != RefreshOk {
      DebtLasts(false, past[..j], i);
    }
  }

  /** And no refresh is demanded without reason: a box reads as usable exactly when none is owed. */
  lemma UsableExactlyWhenPaid(steps: seq<Step>, cfg: Config)
    requires ValidConfig(cfg) && SafeRun(steps, cfg)
    ensures var w := Run(steps, cfg);
      (StatusOn(w.disk).Pristine? || StatusOn(w.disk).Held?) <==> !Debt(false, w.history)
  {
    RunKeeps(steps, cfg);
  }

  /** What happened stays in the history, and what was logged stays in the log. */
  lemma HistoryGrows(w: World, s: Step, cfg: Config)
    ensures w.history <= Next(w, s, cfg).history && w.log <= Next(w, s, cfg).log
  {
    if Enabled(w, s, cfg) && Transacts(s) {
      StepIsTransaction(w, s, cfg);
    } else if Enabled(w, s, cfg) {
      OtherStepsLogNothing(w, s, cfg);
    }
  }

  // ---------------------------------------------------------------------------
  // the refresh lock
  // ---------------------------------------------------------------------------

  /** In every run, whoever dies where: a refresh command, and anything it left behind that still has the
      inherited descriptor, owns the lock. */
  lemma CommandOwnsTheLock(steps: seq<Step>, cfg: Config, pid: int)
    requires ValidConfig(cfg)
    requires var w := Run(steps, cfg); pid in w.procs && w.procs[pid].Command?
    ensures var w := Run(steps, cfg); w.locked == Some(w.procs[pid].ofd)
  {
    BaseRunKeeps(steps, cfg);
  }

  /** While there is such a process the box is dirty or refreshing; nobody holds it and nobody takes it. */
  lemma NoUsableBoxUnderACommand(steps: seq<Step>, cfg: Config, pid: int)
    requires ValidConfig(cfg) && HeedsRun(steps, cfg)
    requires var w := Run(steps, cfg); pid in w.procs && w.procs[pid].Command?
    ensures var w := Run(steps, cfg);
      && Unready(StatusOn(w.disk))
      && Load(w.disk, 0.0).holder == None
      && (SafeRun(steps, cfg) ==> Debt(false, w.history))
  {
    LeftAloneIff(steps, cfg);
    BaseRunKeeps(steps, cfg);
    LoadIsConsistent(Run(steps, cfg).disk, 0.0);
    if SafeRun(steps, cfg) {
      RunKeeps(steps, cfg);
    }
  }

  /** In every run, whoever dies where, at most one refresh is at work: its CLI, its commands and their
      leftovers. */
  lemma OneRefreshAtATime(steps: seq<Step>, cfg: Config, p: int, q: int)
    requires ValidConfig(cfg)
    requires var w := Run(steps, cfg);
      p in w.procs && q in w.procs && Working(w.procs[p]) && Working(w.procs[q])
    ensures var w := Run(steps, cfg); TokenOf(w.procs[p]) == TokenOf(w.procs[q])
    ensures var w := Run(steps, cfg); w.procs[p].Cli? && w.procs[q].Cli? ==> p == q
  {
    BaseRunKeeps(steps, cfg);
    var w := Run(steps, cfg);
    if w.procs[p].Cli? && w.procs[q].Command? {
      assert Beside(w.procs[p].phase, w.procs[q].token);
    } else if w.procs[q].Cli? && w.procs[p].Command? {
      assert Beside(w.procs[q].phase, w.procs[p].token);
    }
  }

  function TokenOf(p: Proc): string
    requires Working(p)
  {
    if p.Command? then p.token else p.phase.token
  }

  /** The finisher of a refresh that is no longer the recorded one changes nothing of its own: the
      file is what the same transaction without it would have saved. */
  lemma StaleFinisherChangesNothing(disk: Disk, token: string, ok: bool, why: string, cfg: Config, env: Env)
    requires DiskOk(disk) && env.ownRefresh
    requires var r := Load(disk, env.now); r.refresh.None? || r.refresh.value.token != token
    ensures var out := Transact(disk, DoFinish(token, ok, why), cfg, env);
      && out.answer == ResultDiscarded
      && out.disk == Transact(disk, DoStatus, cfg, env).disk
      && out.events == Transact(disk, DoStatus, cfg, env).events
      && RefreshOk !in out.events
  {
    var r := Load(disk, env.now);
    LoadIsConsistent(disk, env.now);
    ReapKeeps(r, cfg, env);
    var reaped := Reap(r, cfg, env);
    assert reaped.rec.refresh == r.refresh;
    ReapLines(r, cfg, env);
    Seqs.InConcat(LoadEvents(disk), reaped.events, RefreshOk);
    Seqs.Nothing(LoadEvents(disk) + reaped.events);
  }

  /** Only the recorded refresh, swept clean, ever makes the box usable again. If the scans missed nobody,
      its CLI is then the only owner of the lock. */
  lemma OnlyACleanSweepCleansTheBox(w: World, s: Step, cfg: Config)
    requires ValidConfig(cfg) && BaseInv(w, cfg) && Safe(w, s) && Unready(StatusOn(w.disk))
    ensures !Unready(StatusOn(Next(w, s, cfg).disk)) <==> RecordsSuccess(w, s, cfg)
    ensures RecordsSuccess(w, s, cfg) ==>
      && SweptClean(w.procs[s.pid])
      && Load(w.disk, 0.0).refresh.Some?
      && Load(w.disk, 0.0).refresh.value.token == w.procs[s.pid].phase.token
      && StatusOn(Next(w, s, cfg).disk) == Pristine
      && (SweptInv(w) ==> OnlyOwner(w, s.pid))
  {
    if RecordsSuccess(w, s, cfg) {
      SuccessKeepsWorkIff(w, s, cfg);
      SuccessComesSwept(w, s, cfg);
      SuccessIsRecorded(w, s, cfg);
      OwnersAreCommands(w, s.pid);
    } else if Enabled(w, s, cfg) {
      if Transacts(s) {
        WorkUnderTransaction(w, s, cfg);
      } else {
        OtherStepsLogNothing(w, s, cfg);
      }
    }
  }

  lemma SuccessIsRecorded(w: World, s: Step, cfg: Config)
    requires DiskOk(w.disk) && RecordsSuccess(w, s, cfg)
    ensures Load(w.disk, 0.0).refresh.Some? && Load(w.disk, 0.0).refresh.value.token == w.procs[s.pid].phase.token
  {
    var env := EnvOf(w, s, cfg);
    var r := Load(w.disk, env.now);
    LoadIsConsistent(w.disk, env.now);
    assert Reap(r, cfg, env).rec.refresh == r.refresh;
  }

  // ---------------------------------------------------------------------------
  // the ways in which a run goes wrong
  // ---------------------------------------------------------------------------

  /** A transaction that dies after moving a file aside keeps the invariant exactly when the file was
      not damaged, that is, when there was nothing to move. */
  lemma CrashAfterMoveIff(w: World, cfg: Config)
    requires Inv(w, cfg)
    ensures Inv(Next(w, CrashAfterMove, cfg), cfg) <==> !Damaged(w.disk)
  {
  }

  /** After such a crash the next lane to ask takes the box, although the file was damaged and no
      refresh has succeeded since, and whatever processes are still at work on it. */
  lemma CrashAfterMoveGivesTheBoxAway(w: World, lane: string, pid: int, now: Time, cfg: Config)
    requires ValidConfig(cfg) && Inv(w, cfg) && Damaged(w.disk)
    requires Accepts(DoTake(lane, pid, cfg.leaseS), cfg)
    ensures var take := Request(DoTake(lane, pid, cfg.leaseS), now, {pid}, {}, [], [], 2);
      var w' := Next(Next(w, CrashAfterMove, cfg), take, cfg);
      && StatusOn(w'.disk) == Held(lane)
      && w'.history == w.history + [Enqueued(lane), Taken(lane)]
      && Debt(false, w.history)
      && !Paid(false, w'.history)
      && w'.procs == w.procs && w'.locked == w.locked
  {
    var lost := Next(w, CrashAfterMove, cfg);
    TakeOfFreeBox(lost, lane, pid, now, cfg);
    TakeWhileOwed(w.history, lane);
  }

  /** A lane that asks for a pristine box nobody waits for takes it. */
  lemma TakeOfFreeBox(w: World, lane: string, pid: int, now: Time, cfg: Config)
    requires ValidConfig(cfg) && DiskOk(w.disk) && StatusOn(w.disk) == Pristine && QueueOn(w.disk) == []
    requires Accepts(DoTake(lane, pid, cfg.leaseS), cfg)
    ensures var take := Request(DoTake(lane, pid, cfg.leaseS), now, {pid}, {}, [], [], 2);
      var w' := Next(w, take, cfg);
      && StatusOn(w'.disk) == Held(lane)
      && w'.history == w.history + [Enqueued(lane), Taken(lane)]
      && w'.log == w.log + [Enqueued(lane), Taken(lane)]
      && w'.procs == w.procs && w'.locked == w.locked
  {
    var take := Request(DoTake(lane, pid, cfg.leaseS), now, {pid}, {}, [], [], 2);
    LoadIsConsistent(w.disk, now);
    assert AfterKill(w, now, {}) == w;
    StepIsTransaction(w, take, cfg);
    FreeBoxIsTaken(w.disk, OpOf(w, take, cfg), cfg, EnvOf(w, take, cfg));
  }

  lemma TakeWhileOwed(past: seq<Event>, lane: string)
    requires Debt(false, past)
    ensures !Paid(false, past + [Enqueued(lane), Taken(lane)])
  {
    var after := past + [Enqueued(lane), Taken(lane)];
    assert after[..|past| + 1] == past + [Enqueued(lane)];
    OneEvent(true, Enqueued(lane));
    DebtConcat(false, past, [Enqueued(lane)]);
    assert after[|past| + 1].Taken?;
  }

  lemma FreeBoxIsTaken(disk: Disk, op: Op, cfg: Config, env: Env)
    requires ValidConfig(cfg) && op.DoTake? && Accepts(op, cfg) && op.pid in env.alive
    requires DiskOk(disk) && StatusOn(disk) == Pristine && QueueOn(disk) == []
    ensures var out := Transact(disk, op, cfg, env);
      && StatusOn(out.disk) == Held(op.lane)
      && out.events == [Enqueued(op.lane), Taken(op.lane)]
  {
    var r := Load(disk, env.now);
    LoadIsConsistent(disk, env.now);
    TransactKeeps(disk, op, cfg, env);
    assert Reap(r, cfg, env).events == [] && Reap(r, cfg, env).rec == r;
  }

  lemma RunOneMore(steps: seq<Step>, s: Step, cfg: Config)
    ensures Run(steps + [s], cfg) == Next(Run(steps, cfg), s, cfg)
    ensures SafeRun(steps + [s], cfg) <==> SafeRun(steps, cfg) && Safe(Run(steps, cfg), s)
  {
    assert (steps + [s])[..|steps|] == steps;
  }

  /** Such a world is reachable in two steps. */
  lemma CrashAfterMoveHappens(cfg: Config)
    requires ValidConfig(cfg)
    ensures var steps := [Damage(Garbage), CrashAfterMove];
      && Run(steps, cfg).disk == Missing
      && Run(steps, cfg).history == [Corrupted]
      && !SafeRun(steps, cfg)
  {
    RunOneMore([], Damage(Garbage), cfg);
    assert [] + [Damage(Garbage)] == [Damage(Garbage)];
    RunOneMore([Damage(Garbage)], CrashAfterMove, cfg);
    assert [Damage(Garbage)] + [CrashAfterMove] == [Damage(Garbage), CrashAfterMove];
    assert [] + [Corrupted] == [Corrupted];
  }

  /** A refresh begun on a new box, with its command running. */
  function UnderWay(): seq<Step> {
    [Open(1), Grab(1), Begin(1, "t", true, 0.0, {}, 1), Spawn(1, 2)]
  }

  lemma StartOnNewBox(cfg: Config)
    requires cfg.hasRefresh
    ensures var out := Transact(Missing, DoStart("t", 1, true), cfg, Env(0.0, {}, Free, true));
      && out.answer == RefreshBegun
      && out.events == [RefreshStarted(Pristine)]
      && Readable(out.disk)
      && out.disk.rec.status == Refreshing && out.disk.rec.queue == []
      && out.disk.rec.refresh.Some? && out.disk.rec.refresh.value.token == "t"
  {
    var r := Fresh(0.0);
    assert Consistent(r);
    TransactKeeps(Missing, DoStart("t", 1, true), cfg, Env(0.0, {}, Free, true));
  }

  lemma UnderWayWorld(cfg: Config)
    requires ValidConfig(cfg) && cfg.hasRefresh
    ensures var w := Run(UnderWay(), cfg);
      && SafeRun(UnderWay(), cfg)
      && w.procs == map[1 := Cli(0, Running("t")), 2 := Command(0, "t")]
      && w.locked == Some(0)
      && w.history == w.log == [RefreshStarted(Pristine)]
      && Readable(w.disk)
      && w.disk.rec.status == Refreshing && w.disk.rec.queue == []
      && w.disk.rec.refresh.Some? && w.disk.rec.refresh.value.token == "t"
  {
    GrabbedWorld(cfg);
    StartOnNewBox(cfg);
    var begin := Begin(1, "t", true, 0.0, {}, 1);
    RunOneMore([Open(1), Grab(1)], begin, cfg);
    assert [Open(1), Grab(1)] + [begin] == [Open(1), Grab(1), begin];
    assert Run([Open(1), Grab(1), begin], cfg).procs == map[1 := Cli(0, Running("t"))];
    RunOneMore([Open(1), Grab(1), begin], Spawn(1, 2), cfg);
    assert [Open(1), Grab(1), begin] + [Spawn(1, 2)] == UnderWay();
  }

  lemma GrabbedWorld(cfg: Config)
    ensures Run([Open(1), Grab(1)], cfg) == START.(procs := map[1 := Cli(0, Grabbed)], locked := Some(0), nextOfd := 1)
    ensures SafeRun([Open(1), Grab(1)], cfg)
  {
    OpenedWorld(cfg);
    RunOneMore([Open(1)], Grab(1), cfg);
    assert [Open(1)] + [Grab(1)] == [Open(1), Grab(1)];
    GrabAlone(1, cfg);
  }

  lemma OpenedWorld(cfg: Config)
    ensures Run([Open(1)], cfg) == START.(procs := map[1 := Cli(0, Opened)], nextOfd := 1)
    ensures SafeRun([Open(1)], cfg)
  {
    RunOneMore([], Open(1), cfg);
    Seqs.Nothing([Open(1)]);
    assert START.procs[1 := Cli(0, Opened)] == map[1 := Cli(0, Opened)];
  }

  lemma GrabAlone(pid: int, cfg: Config)
    ensures Next(START.(procs := map[pid := Cli(0, Opened)], nextOfd := 1), Grab(pid), cfg) ==
      START.(procs := map[pid := Cli(0, Grabbed)], locked := Some(0), nextOfd := 1)
  {
    assert map[pid := Cli(0, Opened)][pid := Cli(0, Grabbed)] == map[pid := Cli(0, Grabbed)];
  }

  /** The file is damaged while a refresh command runs, a transaction dies after moving it aside, and a
      lane holds the box under the command. */
  lemma HoldBesideACommand(lane: string, pid: int, now: Time, cfg: Config)
    requires ValidConfig(cfg) && cfg.hasRefresh && Accepts(DoTake(lane, pid, cfg.leaseS), cfg)
    ensures var take := Request(DoTake(lane, pid, cfg.leaseS), now, {pid}, {}, [], [], 2);
      var w := Run(UnderWay() + [Damage(Garbage)] + [CrashAfterMove] + [take], cfg);
      && StatusOn(w.disk) == Held(lane)
      && 2 in w.procs && w.procs[2].Command? && Owns(w, 2)
  {
    UnderWayWorld(cfg);
    var damaged := UnderWay() + [Damage(Garbage)];
    RunOneMore(UnderWay(), Damage(Garbage), cfg);
    CrashThenTake(damaged, lane, pid, now, cfg);
  }

  lemma CrashThenTake(steps: seq<Step>, lane: string, pid: int, now: Time, cfg: Config)
    requires ValidConfig(cfg) && SafeRun(steps, cfg) && Damaged(Run(steps, cfg).disk)
    requires Accepts(DoTake(lane, pid, cfg.leaseS), cfg)
    ensures var take := Request(DoTake(lane, pid, cfg.leaseS), now, {pid}, {}, [], [], 2);
      var w, w' := Run(steps, cfg), Run(steps + [CrashAfterMove] + [take], cfg);
      StatusOn(w'.disk) == Held(lane) && w'.procs == w.procs && w'.locked == w.locked
  {
    RunKeeps(steps, cfg);
    RunOneMore(steps, CrashAfterMove, cfg);
    RunOneMore(steps + [CrashAfterMove], Request(DoTake(lane, pid, cfg.leaseS), now, {pid}, {}, [], [], 2), cfg);
    CrashAfterMoveGivesTheBoxAway(Run(steps, cfg), lane, pid, now, cfg);
  }

  /** The success of the refresh under way is recorded, and the first `logged` of its lines are appended. */
  lemma EndSucceeds(w: World, end: Step, cfg: Config)
    requires ValidConfig(cfg) && cfg.hasRefresh && FileInv(w, cfg)
    requires end.End? && end.ok && end.pid in w.procs && w.procs[end.pid].Cli?
    requires w.procs[end.pid].phase == Settled("t", true)
    requires Readable(w.disk) && w.disk.rec.status == Refreshing && w.disk.rec.queue == []
    requires w.disk.rec.refresh.Some? && w.disk.rec.refresh.value.token == "t"
    ensures var w' := Next(w, end, cfg);
      && StatusOn(w'.disk) == Pristine && QueueOn(w'.disk) == [] && DiskOk(w'.disk)
      && w'.history == w.history + [RefreshOk]
      && w'.log == w.log + FirstLines([RefreshOk], end.logged)
      && (1 <= end.logged ==>
            w' == SetPhase(w, end.pid, Finished).(disk := w'.disk, history := w'.history, log := w'.log))
  {
    StepIsTransaction(w, end, cfg);
    FinishSucceeds(w.disk, OpOf(w, end, cfg), cfg, EnvOf(w, end, cfg));
  }

  lemma FinishSucceeds(disk: Disk, op: Op, cfg: Config, env: Env)
    requires cfg.hasRefresh && DiskOk(disk) && Readable(disk) && disk.rec.status == Refreshing && disk.rec.queue == []
    requires op.DoFinish? && op.ok && env.ownRefresh
    requires disk.rec.refresh.Some? && disk.rec.refresh.value.token == op.token
    ensures var out := Transact(disk, op, cfg, env);
      && StatusOn(out.disk) == Pristine && QueueOn(out.disk) == [] && DiskOk(out.disk)
      && out.events == [RefreshOk]
  {
    var r := disk.rec;
    TransactKeeps(disk, op, cfg, env);
    assert Reap(r, cfg, env).events == [] && Reap(r, cfg, env).rec == r;
  }

  lemma ThenTaken(steps: seq<Step>, lane: string, pid: int, now: Time, cfg: Config)
    requires ValidConfig(cfg) && Accepts(DoTake(lane, pid, cfg.leaseS), cfg)
    requires var disk := Run(steps, cfg).disk; DiskOk(disk) && StatusOn(disk) == Pristine && QueueOn(disk) == []
    ensures var take := Request(DoTake(lane, pid, cfg.leaseS), now, {pid}, {}, [], [], 2);
      var w, w' := Run(steps, cfg), Run(steps + [take], cfg);
      && (SafeRun(steps + [take], cfg) <==> SafeRun(steps, cfg))
      && StatusOn(w'.disk) == Held(lane)
      && w'.history == w.history + [Enqueued(lane), Taken(lane)]
      && w'.log == w.log + [Enqueued(lane), Taken(lane)]
      && w'.procs == w.procs && w'.locked == w.locked
  {
    RunOneMore(steps, Request(DoTake(lane, pid, cfg.leaseS), now, {pid}, {}, [], [], 2), cfg);
    TakeOfFreeBox(Run(steps, cfg), lane, pid, now, cfg);
  }

  /** The command of the refresh under way lives on, and the sweep does not see it. */
  function Overlooked(): seq<Step> { UnderWay() + [Sweep(1, {}, {2}, true)] }

  lemma OverlookedWorld(cfg: Config)
    requires ValidConfig(cfg) && cfg.hasRefresh
    ensures var w, u := Run(Overlooked(), cfg), Run(UnderWay(), cfg);
      && SafeRun(Overlooked(), cfg)
      && w == u.(procs := map[1 := Cli(0, Settled("t", true)), 2 := Command(0, "t")])
  {
    UnderWayWorld(cfg);
    RunOneMore(UnderWay(), Sweep(1, {}, {2}, true), cfg);
    var u := Run(UnderWay(), cfg);
    assert Owns(u, 2);
    assert Without(u, {}).procs == u.procs;
  }

  lemma EndBesideALeftover(cfg: Config)
    requires ValidConfig(cfg) && cfg.hasRefresh
    ensures var steps := Overlooked() + [End(1, true, "", 0.0, {}, 1)];
      var w := Run(steps, cfg);
      && SafeRun(steps, cfg)
      && w.procs == map[1 := Cli(0, Finished), 2 := Command(0, "t")] && w.locked == Some(0)
      && StatusOn(w.disk) == Pristine && QueueOn(w.disk) == [] && DiskOk(w.disk)
  {
    var end := End(1, true, "", 0.0, {}, 1);
    UnderWayWorld(cfg);
    OverlookedWorld(cfg);
    BaseRunKeeps(Overlooked(), cfg);
    RunOneMore(Overlooked(), end, cfg);
    EndSucceeds(Run(Overlooked(), cfg), end, cfg);
  }

  /** A leftover that the scan of the owners cannot read: the refresh is recorded as done beside it, and a
      lane holds the box under it. No file is damaged and nobody dies. */
  lemma HoldBesideALeftover(lane: string, pid: int, now: Time, cfg: Config)
    requires ValidConfig(cfg) && cfg.hasRefresh && Accepts(DoTake(lane, pid, cfg.leaseS), cfg)
    ensures var take := Request(DoTake(lane, pid, cfg.leaseS), now, {pid}, {}, [], [], 2);
      var steps := Overlooked() + [End(1, true, "", 0.0, {}, 1)] + [take];
      var w := Run(steps, cfg);
      && SafeRun(steps, cfg)
      && StatusOn(w.disk) == Held(lane)
      && 2 in w.procs && w.procs[2].Command? && Owns(w, 2)
  {
    EndBesideALeftover(cfg);
    ThenTaken(Overlooked() + [End(1, true, "", 0.0, {}, 1)], lane, pid, now, cfg);
  }

  // ---------------------------------------------------------------------------
  // first come, first served, over a run
  // ---------------------------------------------------------------------------

  /** What happened between two worlds of a run. */
  function Since(before: World, after: World): seq<Event>
    requires before.history <= after.history
  {
    after.history[|before.history|..]
  }

  ghost function After(w: World, steps: seq<Step>, cfg: Config): World {
    if steps == [] then w
    else Next(After(w, steps[..|steps| - 1], cfg), steps[|steps| - 1], cfg)
  }

  lemma {:induction false} AfterKeeps(w: World, steps: seq<Step>, cfg: Config)
    requires ValidConfig(cfg) && FileInv(w, cfg)
    ensures FileInv(After(w, steps, cfg), cfg) && w.history <= After(w, steps, cfg).history
  {
    if steps != [] {
      var front := steps[..|steps| - 1];
      AfterKeeps(w, front, cfg);
      FileKept(After(w, front, cfg), steps[|steps| - 1], cfg);
      HistoryGrows(After(w, front, cfg), steps[|steps| - 1], cfg);
    }
  }

  lemma DamageEndsWaits(w: World, s: Step, cfg: Config, a: string)
    ensures Enabled(w, s, cfg) && s.Damage? ==>
      var w' := Next(w, s, cfg); w.history <= w'.history && !KeepsWaiting(Since(w, w'), a)
  {
    if Enabled(w, s, cfg) && s.Damage? {
      assert Since(w, Next(w, s, cfg))[0] == Corrupted;
      assert EndsWait(Corrupted, a);
    }
  }

  /** One step: a lane whose wait does not end stays queued, no further back, and ahead of everybody
      who was behind it or comes later. */
  lemma StepFifo(w: World, s: Step, cfg: Config, a: string, b: string)
    requires ValidConfig(cfg) && FileInv(w, cfg) && a != b
    requires w.history <= Next(w, s, cfg).history
    requires Waits(QueueOn(w.disk), a) && KeepsWaiting(Since(w, Next(w, s, cfg)), a)
    ensures var q := QueueOn(Next(w, s, cfg).disk);
      && 0 <= IndexOf(q, a) <= IndexOf(QueueOn(w.disk), a)
      && (Behind(QueueOn(w.disk), a, b) ==> Behind(q, a, b))
  {
    if Enabled(w, s, cfg) {
      if Transacts(s) {
        StepIsTransaction(w, s, cfg);
        TransactFifo(w.disk, OpOf(w, s, cfg), cfg, EnvOf(w, s, cfg), a, b);
      } else {
        DamageEndsWaits(w, s, cfg, a);
        OtherStepsLogNothing(w, s, cfg);
      }
    }
  }

  lemma SplitWait(p: seq<Event>, q: seq<Event>, r: seq<Event>, a: string)
    requires p <= q <= r && KeepsWaiting(r[|p|..], a)
    ensures KeepsWaiting(q[|p|..], a) && KeepsWaiting(r[|q|..], a)
  {
    var x, y := q[|p|..], r[|q|..];
    assert r[|p|..] == x + y;
    forall e | e in x || e in y ensures !EndsWait(e, a) {
      Seqs.InConcat(x, y, e);
    }
  }

  /** Strict FIFO over any stretch of a run: while `a` keeps waiting its place only improves, and every
      lane that was behind it, or was not waiting when the stretch began, is behind it still. */
  lemma {:induction false} FifoOverRuns(w: World, steps: seq<Step>, cfg: Config, a: string, b: string)
    requires ValidConfig(cfg) && FileInv(w, cfg) && a != b
    requires w.history <= After(w, steps, cfg).history
    requires Waits(QueueOn(w.disk), a) && KeepsWaiting(Since(w, After(w, steps, cfg)), a)
    ensures var q := QueueOn(After(w, steps, cfg).disk);
      && 0 <= IndexOf(q, a) <= IndexOf(QueueOn(w.disk), a)
      && (Behind(QueueOn(w.disk), a, b) ==> Behind(q, a, b))
  {
    if steps != [] {
      var front, last := steps[..|steps| - 1], steps[|steps| - 1];
      AfterKeeps(w, front, cfg);
      var mid := After(w, front, cfg);
      var end := After(w, steps, cfg);
      HistoryGrows(mid, last, cfg);
      SplitWait(w.history, mid.history, end.history, a);
      FifoOverRuns(w, front, cfg, a, b);
      StepFifo(mid, last, cfg, a, b);
    }
  }

  /** Nobody takes the box past a lane that waits ahead of it. */
  lemma TakeWaitsItsTurn(w: World, s: Step, cfg: Config, a: string, b: string)
    requires ValidConfig(cfg) && FileInv(w, cfg) && a != b && w.history <= Next(w, s, cfg).history
    requires Waits(QueueOn(w.disk), a) && Behind(QueueOn(w.disk), a, b)
    requires Taken(b) in Since(w, Next(w, s, cfg))
    ensures Drop(a) in Since(w, Next(w, s, cfg))
  {
    if Enabled(w, s, cfg) && Transacts(s) {
      StepIsTransaction(w, s, cfg);
      TakeNeverOvertakes(w.disk, OpOf(w, s, cfg), cfg, EnvOf(w, s, cfg), a, b);
    }
  }

  // ---------------------------------------------------------------------------
  // the cap on a hold, over a run
  // ---------------------------------------------------------------------------

  /** In every reachable world the recorded lease ends by the cap of its hold, so by OverdueHoldEnds the
      first transaction at or after that instant ends the hold. */
  lemma HoldsAreCapped(steps: seq<Step>, cfg: Config)
    requires ValidConfig(cfg)
    ensures var h := Load(Run(steps, cfg).disk, 0.0).holder;
      h.Some? ==> h.value.leaseUntil <= h.value.takenAt + cfg.maxHoldS
  {
    BaseRunKeeps(steps, cfg);
  }

  // ---------------------------------------------------------------------------
  // who is in the file
  // ---------------------------------------------------------------------------

  /** Pids that can be watched, on a box that can be refreshed. */
  ghost predicate Served(r: Rec, cfg: Config) {
    && (forall e :: e in r.queue ==> e.pid > 1)
    && (r.holder.Some? ==> r.holder.value.pid > 1)
    && (r.queue != [] || r.holder.Some? || r.refresh.Some? ==> cfg.hasRefresh)
  }

  lemma JoinServes(r: Rec, lane: string, pid: int, cfg: Config, now: Time)
    requires Served(r, cfg) && pid > 1 && cfg.hasRefresh
    ensures Served(Join(r, lane, pid, now), cfg)
  {
    var i, q := IndexOf(r.queue, lane), Join(r, lane, pid, now).queue;
    forall e | e in q ensures e.pid > 1 {
      var k :| 0 <= k < |q| && q[k] == e;
      assert k < |r.queue| && k != i ==> e == r.queue[k];
    }
  }

  lemma ApplyServes(r: Rec, op: Op, cfg: Config, now: Time)
    requires Served(r, cfg) && Accepts(op, cfg)
    ensures Served(Apply(r, op, cfg, now).rec, cfg)
  {
    match op
    case DoEnqueue(lane, pid) => JoinServes(r, lane, pid, cfg, now);
    case DoTake(lane, pid, _) =>
      JoinServes(r, lane, pid, cfg, now);
      var q := Join(r, lane, pid, now).queue;
      assert forall e :: e in q[1..] ==> e in q;
    case DoRelease(lane, _, _) =>
      var i := IndexOf(r.queue, lane);
      if 0 <= i {
        assert forall e :: e in RemoveAt(r.queue, i) ==> e in r.queue;
      }
    case _ =>
  }

  lemma ReapServes(r: Rec, cfg: Config, env: Env)
    requires Consistent(r) && Served(r, cfg)
    ensures Served(Reap(r, cfg, env).rec, cfg)
  {
    ReapKeeps(r, cfg, env);
    SurvivorsAreEntries(r.queue, cfg, env);
  }

  lemma StepServes(w: World, s: Step, cfg: Config)
    requires FileInv(w, cfg) && Served(Load(w.disk, 0.0), cfg)
    ensures Served(Load(Next(w, s, cfg).disk, 0.0), cfg)
  {
    if Enabled(w, s, cfg) && Transacts(s) {
      StepIsTransaction(w, s, cfg);
      var op, env := OpOf(w, s, cfg), EnvOf(w, s, cfg);
      var r := Load(w.disk, env.now);
      LoadIsConsistent(w.disk, env.now);
      assert Served(r, cfg);
      ReapServes(r, cfg, env);
      ApplyServes(Reap(r, cfg, env).rec, op, cfg, env.now);
      CommandSeesReaped(w.disk, op, cfg, env);
    } else if Enabled(w, s, cfg) {
      OtherStepsLogNothing(w, s, cfg);
    }
  }

  /** In every run, whoever waits for the box or holds it was recorded under a pid that can be watched, and
      on a box without a refresh command nobody ever waits, holds or refreshes. */
  lemma {:induction false} RecordedPidsAreReal(steps: seq<Step>, cfg: Config)
    requires ValidConfig(cfg)
    ensures Served(Load(Run(steps, cfg).disk, 0.0), cfg)
  {
    if steps != [] {
      var front := steps[..|steps| - 1];
      RecordedPidsAreReal(front, cfg);
      BaseRunKeeps(front, cfg);
      StepServes(Run(front, cfg), steps[|steps| - 1], cfg);
    }
  }

  /** The refresh on file and every process at work go by a token that was drawn before. */
  ghost predicate Spent(w: World) {
    && (Load(w.disk, 0.0).refresh.Some? ==> Load(w.disk, 0.0).refresh.value.token in w.tokens)
    && forall p :: p in w.procs && Working(w.procs[p]) ==> TokenOf(w.procs[p]) in w.tokens
  }

  /** A transaction puts no refresh in the file but the one it starts. */
  lemma RefreshComesFrom(disk: Disk, op: Op, cfg: Config, env: Env)
    requires DiskOk(disk) && Accepts(op, cfg)
    ensures var f, f' := Load(disk, 0.0).refresh, Load(Transact(disk, op, cfg, env).disk, 0.0).refresh;
      f' == f || f' == None || (op.DoStart? && f'.value.token == op.token)
  {
    CommandSeesReaped(disk, op, cfg, env);
    LoadIsConsistent(disk, env.now);
    var r := Load(disk, env.now);
    ReapKeeps(r, cfg, env);
    ReapAddsNoRefresh(r, cfg, env);
    CommandsRefresh(Reap(r, cfg, env).rec, op, cfg, env.now);
  }

  lemma ReapAddsNoRefresh(r: Rec, cfg: Config, env: Env)
    ensures Reap(r, cfg, env).rec.refresh in {r.refresh, None}
  {
  }

  lemma CommandsRefresh(r: Rec, op: Op, cfg: Config, now: Time)
    requires Consistent(r)
    ensures var f := Apply(r, op, cfg, now).rec.refresh;
      f == r.refresh || f == None || (op.DoStart? && f.value.token == op.token)
  {
    if LaneOp(op) {
      LaneOpsLeaveRefresh(r, op, cfg, now);
    }
  }

  lemma FileSpends(w: World, s: Step, cfg: Config)
    requires FileInv(w, cfg) && Spent(w) && Enabled(w, s, cfg)
    ensures var f := Load(Next(w, s, cfg).disk, 0.0).refresh;
      f.Some? ==> f.value.token in w.tokens || (s.Begin? && f.value.token == s.token)
  {
    if Transacts(s) {
      StepIsTransaction(w, s, cfg);
      RefreshComesFrom(w.disk, OpOf(w, s, cfg), cfg, EnvOf(w, s, cfg));
    } else {
      OtherStepsLogNothing(w, s, cfg);
    }
  }

  lemma WorkersSpend(w: World, s: Step, cfg: Config, p: int)
    requires Spent(w) && Enabled(w, s, cfg)
    requires p in Next(w, s, cfg).procs && Working(Next(w, s, cfg).procs[p])
    ensures var token := TokenOf(Next(w, s, cfg).procs[p]);
      token in w.tokens || (s.Begin? && token == s.token)
  {
    match s
    case Spawn(pid, _) => assert Working(w.procs[pid]);
    case Sweep(pid, _, _, _) => assert Working(w.procs[pid]);
    case Fork(pid, _) => assert Working(w.procs[pid]);
    case _ =>
      if p in w.procs && Working(w.procs[p]) {
      }
  }

  lemma StepSpends(w: World, s: Step, cfg: Config)
    requires FileInv(w, cfg) && Spent(w)
    ensures w.tokens <= Next(w, s, cfg).tokens && Spent(Next(w, s, cfg))
  {
    var w' := Next(w, s, cfg);
    if Enabled(w, s, cfg) {
      FileSpends(w, s, cfg);
      forall p | p in w'.procs && Working(w'.procs[p]) ensures TokenOf(w'.procs[p]) in w'.tokens {
        WorkersSpend(w, s, cfg, p);
      }
    }
  }

  /** No token serves twice: in every run the refresh on file and all processes at work go by tokens drawn
      before, and a refresh begins under a new one. */
  lemma {:induction false} TokensServeOnce(steps: seq<Step>, s: Step, cfg: Config)
    requires ValidConfig(cfg)
    ensures Spent(Run(steps, cfg))
    ensures var w := Run(steps, cfg); s.Begin? && Enabled(w, s, cfg) ==>
      && s.token in Next(w, s, cfg).tokens
      && (Load(w.disk, 0.0).refresh.Some? ==> Load(w.disk, 0.0).refresh.value.token != s.token)
      && forall p :: p in w.procs && Working(w.procs[p]) ==> TokenOf(w.procs[p]) != s.token
  {
    if steps != [] {
      var front, last := steps[..|steps| - 1], steps[|steps| - 1];
      TokensServeOnce(front, last, cfg);
      BaseRunKeeps(front, cfg);
      StepSpends(Run(front, cfg), last, cfg);
    }
  }
}
