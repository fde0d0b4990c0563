/** Is the box left alone while a refresh is at work on it? Its CLI, its commands and whatever they leave
    behind work on it; as long as one of them lives, the box must not read as usable. */
module BoxWork {
  import opened BoxRecord
  import opened BoxInvariant
  import opened BoxLaws
  import opened BoxDebt
  import opened RefreshProtocol
  import opened Options

  ghost predicate WorkInv(w: World) {
    forall p :: p in w.procs && Working(w.procs[p]) ==> Unready(StatusOn(w.disk))
  }

  ghost predicate NobodyWorks(w: World) {
    forall p :: p in w.procs ==> !Working(w.procs[p])
  }

  ghost predicate OnlyOwner(w: World, pid: int) {
    forall p :: Owns(w, p) ==> p == pid
  }

  /** The step records that a refresh succeeded. */
  ghost predicate RecordsSuccess(w: World, s: Step, cfg: Config) {
    && s.End? && Enabled(w, s, cfg)
    && Transact(w.disk, OpOf(w, s, cfg), cfg, EnvOf(w, s, cfg)).answer == RefreshedOk
  }

  /** What the two steps that can give a busy box away have to heed: no death after the move of a damaged
      file while somebody works, and no success recorded while somebody else owns the lock. */
  ghost predicate Heeds(w: World, s: Step, cfg: Config) {
    && (s == CrashAfterMove && Damaged(w.disk) ==> NobodyWorks(w))
    && (RecordsSuccess(w, s, cfg) ==> OnlyOwner(w, s.pid))
  }

  ghost predicate HeedsRun(steps: seq<Step>, cfg: Config) {
    steps == [] || (
    && HeedsRun(steps[..|steps| - 1], cfg)
    && Heeds(Run(steps[..|steps| - 1], cfg), steps[|steps| - 1], cfg))
  }

  ghost predicate LeftAloneSoFar(steps: seq<Step>, cfg: Config) {
    && WorkInv(Run(steps, cfg))
    && (steps == [] || LeftAloneSoFar(steps[..|steps| - 1], cfg))
  }

  // ---------------------------------------------------------------------------
  // transactions
  // ---------------------------------------------------------------------------

  /** A transaction that records no success of a refresh leaves an unready box unready. */
  lemma UnreadyStays(disk: Disk, op: Op, cfg: Config, env: Env)
    requires DiskOk(disk) && Accepts(op, cfg) && Unready(StatusOn(disk))
    requires Transact(disk, op, cfg, env).answer != RefreshedOk
    ensures Unready(StatusOn(Transact(disk, op, cfg, env).disk))
  {
    var r := Load(disk, env.now);
    LoadIsConsistent(disk, env.now);
    ReapKeeps(r, cfg, env);
    TransactKeeps(disk, op, cfg, env);
    UnreadyThroughReap(r, cfg, env);
    UnreadyThroughApply(Reap(r, cfg, env).rec, op, cfg, env.now);
  }

  lemma UnreadyThroughReap(r: Rec, cfg: Config, env: Env)
    requires Consistent(r) && Unready(r.status)
    ensures Unready(Reap(r, cfg, env).rec.status)
  {
  }

  lemma UnreadyThroughApply(r: Rec, op: Op, cfg: Config, now: Time)
    requires Consistent(r) && Accepts(op, cfg) && Unready(r.status)
    requires Apply(r, op, cfg, now).answer != RefreshedOk
    ensures Unready(Apply(r, op, cfg, now).rec.status)
  {
  }

  lemma StartedIsRefreshing(disk: Disk, op: Op, cfg: Config, env: Env)
    requires DiskOk(disk) && Accepts(op, cfg) && op.DoStart?
    requires Transact(disk, op, cfg, env).answer == RefreshBegun
    ensures StatusOn(Transact(disk, op, cfg, env).disk) == Refreshing
  {
    TransactKeeps(disk, op, cfg, env);
  }

  lemma SucceededIsPristine(disk: Disk, op: Op, cfg: Config, env: Env)
    requires DiskOk(disk) && Accepts(op, cfg) && op.DoFinish?
    requires Transact(disk, op, cfg, env).answer == RefreshedOk
    ensures StatusOn(Transact(disk, op, cfg, env).disk) == Pristine
  {
    TransactKeeps(disk, op, cfg, env);
  }

  // ---------------------------------------------------------------------------
  // one step
  // ---------------------------------------------------------------------------

  /** No step but a start makes a process work. */
  lemma WorkersBefore(w: World, s: Step, cfg: Config, p: int)
    requires ProcInv(w) && Enabled(w, s, cfg)
    requires p in Next(w, s, cfg).procs && Working(Next(w, s, cfg).procs[p])
    ensures !NobodyWorks(w) || (
      s.Begin? && Transact(w.disk, OpOf(w, s, cfg), cfg, EnvOf(w, s, cfg)).answer == RefreshBegun)
  {
    match s
    case Spawn(pid, _) => assert Working(w.procs[pid]);
    case Sweep(pid, _, _, _) => assert Working(w.procs[pid]);
    case Fork(pid, _) => assert Working(w.procs[pid]);
    case _ =>
      if p in w.procs && Working(w.procs[p]) {
      }
  }

  /** Beside a CLI under the lock only commands own it. */
  lemma OwnersAreCommands(w: World, pid: int)
    requires ProcInv(w) && IsCli(w, pid) && Fenced(w.procs[pid])
    ensures forall p :: Owns(w, p) && p != pid ==> w.procs[p].Command?
  {
  }

  /** Whoever works owns the lock, and works on unless he is the CLI that records its end. */
  lemma WorkersOwn(w: World, s: Step, cfg: Config)
    requires ProcInv(w) && RecordsSuccess(w, s, cfg)
    ensures NobodyWorks(Next(w, s, cfg)) <==> OnlyOwner(w, s.pid)
  {
    var w' := Next(w, s, cfg);
    OwnersAreCommands(w, s.pid);
    if p :| Owns(w, p) && p != s.pid {
      assert p in w'.procs && Working(w'.procs[p]);
    } else {
      forall p | p in w'.procs ensures !Working(w'.procs[p]) {
        assert p != s.pid ==> p in w.procs && w.procs[p] == w'.procs[p];
        assert p != s.pid && Fenced(w.procs[p]) ==> Owns(w, p);
      }
    }
  }

  lemma WorkUnderTransaction(w: World, s: Step, cfg: Config)
    requires FileInv(w, cfg) && Enabled(w, s, cfg) && Transacts(s) && !RecordsSuccess(w, s, cfg)
    requires var answer := Transact(w.disk, OpOf(w, s, cfg), cfg, EnvOf(w, s, cfg)).answer;
      Unready(StatusOn(w.disk)) || (s.Begin? && answer == RefreshBegun)
    ensures Unready(StatusOn(Next(w, s, cfg).disk))
  {
    StepIsTransaction(w, s, cfg);
    var op, env := OpOf(w, s, cfg), EnvOf(w, s, cfg);
    if Unready(StatusOn(w.disk)) {
      OnlyAFinishSucceeds(w.disk, op, cfg, env);
      UnreadyStays(w.disk, op, cfg, env);
    } else {
      StartedIsRefreshing(w.disk, op, cfg, env);
    }
  }

  lemma OnlyAFinishSucceeds(disk: Disk, op: Op, cfg: Config, env: Env)
    ensures Transact(disk, op, cfg, env).answer == RefreshedOk ==> op.DoFinish? && op.ok
  {
  }

  lemma WorkKept(w: World, s: Step, cfg: Config)
    requires BaseInv(w, cfg) && WorkInv(w) && Heeds(w, s, cfg) && !RecordsSuccess(w, s, cfg)
    ensures WorkInv(Next(w, s, cfg))
  {
    if Enabled(w, s, cfg) {
      var w' := Next(w, s, cfg);
      forall p | p in w'.procs && Working(w'.procs[p]) ensures Unready(StatusOn(w'.disk)) {
        WorkersBefore(w, s, cfg, p);
        if Transacts(s) {
          WorkUnderTransaction(w, s, cfg);
        } else {
          OtherStepsLogNothing(w, s, cfg);
        }
      }
    }
  }

  lemma SuccessKeepsWorkIff(w: World, s: Step, cfg: Config)
    requires BaseInv(w, cfg) && RecordsSuccess(w, s, cfg)
    ensures StatusOn(Next(w, s, cfg).disk) == Pristine
    ensures WorkInv(Next(w, s, cfg)) <==> OnlyOwner(w, s.pid)
  {
    StepIsTransaction(w, s, cfg);
    SucceededIsPristine(w.disk, OpOf(w, s, cfg), cfg, EnvOf(w, s, cfg));
    WorkersOwn(w, s, cfg);
  }

  /** A step leaves the box alone exactly if it heeds both. */
  lemma StepLeavesAloneIff(w: World, s: Step, cfg: Config)
    requires BaseInv(w, cfg) && WorkInv(w)
    ensures WorkInv(Next(w, s, cfg)) <==> Heeds(w, s, cfg)
  {
    if RecordsSuccess(w, s, cfg) {
      SuccessKeepsWorkIff(w, s, cfg);
    } else if Heeds(w, s, cfg) {
      WorkKept(w, s, cfg);
    }
  }

  // ---------------------------------------------------------------------------
  // whole runs
  // ---------------------------------------------------------------------------

  /** So the runs whose steps all heed them are exactly those in which, at every moment, a box that somebody
      works on reads as dirty or refreshing. */
  lemma {:induction false} LeftAloneIff(steps: seq<Step>, cfg: Config)
    requires ValidConfig(cfg)
    ensures HeedsRun(steps, cfg) <==> LeftAloneSoFar(steps, cfg)
  {
    if steps != [] {
      var front, last := steps[..|steps| - 1], steps[|steps| - 1];
      LeftAloneIff(front, cfg);
      BaseRunKeeps(front, cfg);
      if HeedsRun(front, cfg) {
        StepLeavesAloneIff(Run(front, cfg), last, cfg);
      }
    }
  }

  // ---------------------------------------------------------------------------
  // sweeps that see every owner
  // ---------------------------------------------------------------------------

  /** No owner that the sweep leaves behind escaped its scan. */
  ghost predicate SeesAll(w: World, s: Step) {
    s.Sweep? ==> forall p :: p in s.unseen && Owns(Without(w, s.dead), p) ==> p == s.pid
  }

  ghost predicate SeesAllRun(steps: seq<Step>, cfg: Config) {
    steps == [] || (
    && SeesAllRun(steps[..|steps| - 1], cfg)
    && SeesAll(Run(steps[..|steps| - 1], cfg), steps[|steps| - 1]))
  }

  /** No command exists beside a CLI that swept clean. */
  ghost predicate SweptInv(w: World) {
    forall c, p :: c in w.procs && p in w.procs && w.procs[c].Cli? && w.procs[p].Command? ==>
      !SweptClean(w.procs[c])
  }

  predicate SweptClean(p: Proc) {
    p.Cli? && p.phase.Settled? && p.phase.ok
  }

  lemma SweptKept(w: World, s: Step, cfg: Config)
    requires ProcInv(w) && SweptInv(w) && SeesAll(w, s)
    ensures SweptInv(Next(w, s, cfg))
  {
    if Enabled(w, s, cfg) {
      match s
      case Spawn(pid, _) => OneFencedCli(w, pid);
      case Sweep(_, _, _, _) => SweepLeavesNone(w, s, cfg);
      case _ =>
    }
  }

  lemma SweepLeavesNone(w: World, s: Step, cfg: Config)
    requires ProcInv(w) && s.Sweep? && SeesAll(w, s) && Enabled(w, s, cfg)
    ensures SweptInv(Next(w, s, cfg))
  {
    var w0, w' := Without(w, s.dead), Next(w, s, cfg);
    OneFencedCli(w, s.pid);
    forall c, p | c in w'.procs && p in w'.procs && w'.procs[c].Cli? && w'.procs[p].Command?
      ensures !SweptClean(w'.procs[c])
    {
      assert p != s.pid && Owns(w0, p);
    }
  }

  lemma {:induction false} SweptRunKeeps(steps: seq<Step>, cfg: Config)
    requires ValidConfig(cfg) && SeesAllRun(steps, cfg)
    ensures SweptInv(Run(steps, cfg))
  {
    if steps != [] {
      var front := steps[..|steps| - 1];
      SweptRunKeeps(front, cfg);
      BaseRunKeeps(front, cfg);
      SweptKept(Run(front, cfg), steps[|steps| - 1], cfg);
    }
  }

  /** The CLI that swept clean is then the only owner. */
  lemma SweptIsOnlyOwner(w: World, pid: int)
    requires ProcInv(w) && SweptInv(w) && IsCli(w, pid) && SweptClean(w.procs[pid])
    ensures OnlyOwner(w, pid)
  {
    OwnersAreCommands(w, pid);
  }

  /** With scans that miss nobody, every safe run leaves a busy box alone. */
  lemma {:induction false} CompleteScansSuffice(steps: seq<Step>, cfg: Config)
    requires ValidConfig(cfg) && SafeRun(steps, cfg) && SeesAllRun(steps, cfg)
    ensures HeedsRun(steps, cfg)
  {
    if steps != [] {
      var front, last := steps[..|steps| - 1], steps[|steps| - 1];
      CompleteScansSuffice(front, cfg);
      BaseRunKeeps(front, cfg);
      SweptRunKeeps(front, cfg);
      if RecordsSuccess(Run(front, cfg), last, cfg) {
        SuccessComesSwept(Run(front, cfg), last, cfg);
        SweptIsOnlyOwner(Run(front, cfg), last.pid);
      }
    }
  }

  lemma SuccessComesSwept(w: World, s: Step, cfg: Config)
    requires RecordsSuccess(w, s, cfg)
    ensures SweptClean(w.procs[s.pid])
  {
    OnlyAFinishSucceeds(w.disk, OpOf(w, s, cfg), cfg, EnvOf(w, s, cfg));
  }

  // ---------------------------------------------------------------------------
  // what the steps that touch other processes do
  // ---------------------------------------------------------------------------

  /** A CLI counts as swept clean exactly after a sweep of its own at which its command had exited with 0 and
      the scan saw no other owner. */
  lemma SweptCleanIff(w: World, s: Step, cfg: Config)
    requires s.Sweep? && Enabled(w, s, cfg)
    ensures s.pid in Next(w, s, cfg).procs
    ensures SweptClean(Next(w, s, cfg).procs[s.pid]) <==>
      s.rcZero && forall p :: Owns(Without(w, s.dead), p) ==> p == s.pid || p in s.unseen
  {
  }

  lemma OnlySweepsClean(w: World, s: Step, cfg: Config, pid: int)
    requires Enabled(w, s, cfg) && !(s.Sweep? && s.pid == pid)
    requires pid in Next(w, s, cfg).procs && SweptClean(Next(w, s, cfg).procs[pid])
    ensures (pid in w.procs && SweptClean(w.procs[pid])) || (s.Fork? && s.child == pid)
  {
  }

  /** A sweep kills owners that its scan saw, and nobody else; nothing else is touched. */
  lemma WhoIsSwept(w: World, s: Step, cfg: Config)
    requires s.Sweep? && Enabled(w, s, cfg)
    ensures forall p :: p in s.dead ==> Owns(w, p) && p != s.pid && p !in s.unseen
    ensures var w' := Next(w, s, cfg);
      && (forall p :: p in w'.procs <==> p in w.procs && p !in s.dead)
      && (forall p :: p in w'.procs && p != s.pid ==> w'.procs[p] == w.procs[p])
  {
  }

  /** A CLI whose transaction saved and could not log all its lines is dead; any other goes on, and one whose
      refresh was not due exits. */
  lemma CutShortIsDead(w: World, s: Step, cfg: Config)
    requires (s.Begin? || s.End?) && Enabled(w, s, cfg)
    ensures var out := Transact(w.disk, OpOf(w, s, cfg), cfg, EnvOf(w, s, cfg));
      s.pid in Next(w, s, cfg).procs <==> |out.events| <= s.logged && (s.Begin? ==> out.answer == RefreshBegun)
  {
  }

  /** A transaction of a lane touches other processes only when it finds a refresh past its deadline, and then
      only owners of the lock. */
  lemma WhoIsKilled(w: World, s: Step, cfg: Config)
    requires s.Request? && Enabled(w, s, cfg)
    ensures var f := Load(w.disk, s.now).refresh;
      if f.Some? && f.value.deadline <= s.now && w.locked.Some? then
        forall p :: p in Next(w, s, cfg).procs <==> p in w.procs && !(p in s.dead && Owns(w, p))
      else Next(w, s, cfg).procs == w.procs && Next(w, s, cfg).locked == w.locked
  {
  }

  /** And such a transaction retires the recorded refresh exactly if its lock is free, or its deadline has passed
      and all owners were killed. */
  lemma RefreshIsRetiredIff(w: World, s: Step, cfg: Config)
    requires BaseInv(w, cfg) && s.Request? && Enabled(w, s, cfg)
    requires Load(w.disk, s.now).refresh.Some?
    ensures var f := Load(w.disk, s.now).refresh.value;
      var retired := w.locked == None || (f.deadline <= s.now && forall p :: Owns(w, p) ==> p in s.dead);
      Load(Next(w, s, cfg).disk, s.now).refresh == if retired then None else Some(f)
  {
    StepIsTransaction(w, s, cfg);
    var r, env := Load(w.disk, s.now), EnvOf(w, s, cfg);
    LoadIsConsistent(w.disk, s.now);
    RefreshSurvivesIff(r, cfg, env);
    TransactKeeps(w.disk, s.op, cfg, env);
    LaneOpsLeaveRefresh(Reap(r, cfg, env).rec, s.op, cfg, s.now);
    if w.locked.Some? {
      FreedIff(w, s);
    }
  }

  lemma FreedIff(w: World, s: Step)
    requires s.Request? && w.locked.Some?
    ensures Without(w, set p | p in s.dead && Owns(w, p)).locked == None <==> forall p :: Owns(w, p) ==> p in s.dead
  {
    var gone := set p | p in s.dead && Owns(w, p);
    var left := w.procs - gone;
    assert forall p :: p in left <==> p in w.procs && p !in gone;
    assert forall p :: p in left ==> left[p] == w.procs[p];
    assert forall p :: Owns(w, p) && p !in s.dead ==> p in left;
    assert forall p :: p in left && w.locked == Some(left[p].ofd) ==> Owns(w, p) && p !in s.dead;
  }

  lemma LaneOpsLeaveRefresh(r: Rec, op: Op, cfg: Config, now: Time)
    requires LaneOp(op)
    ensures Apply(r, op, cfg, now).rec.refresh == r.refresh
  {
  }
}
