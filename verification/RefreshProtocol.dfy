/** Whole runs of the shared box: lanes and refresh CLIs run transactions on one file, refresh commands
    inherit the refresh lock, and any process may die at any step. */
module RefreshProtocol {
  import opened BoxRecord
  import opened BoxInvariant
  import opened BoxDebt
  import opened BoxLease
  import opened Options

  // ---------------------------------------------------------------------------
  // the world
  // ---------------------------------------------------------------------------

  /** How far a refresh CLI is: it has opened the lock file, owns the lock, may be running a command,
      has swept up after one (`ok`: it exited with 0 and the scan saw no other owner of the lock), or has
      recorded its result. */
  datatype Phase =
    | Opened
    | Grabbed
    | Running(token: string)
    | Settled(token: string, ok: bool)
    | Finished

  /** A process that has the refresh lock file open. `ofd` names its open file description: a flock
      belongs to the description, and a child inherits its parent's. */
  datatype Proc = Cli(ofd: nat, phase: Phase) | Command(ofd: nat, token: string)

  /** `log` is the decision log on disk. `history` is what has happened, written down or not: it also has
      the lines of transactions that saved and died before logging, and a Corrupted for each damage. */
  datatype World = World(
    disk: Disk,
    log: seq<Event>,
    history: seq<Event>,
    procs: map<int, Proc>,
    locked: Option<nat>,
    nextOfd: nat,
    tokens: set<string>)

  const START := World(Missing, [], [], map[], None, 0, {})

  /** What can happen next; a step that is not possible in a world leaves it as it is.
      Vanish covers a SIGKILL, an exit, and closing the inherited descriptor. A transaction saves and then
      appends its log lines: if it dies in between, only the first `logged` of them get there. A sweep does
      not see the owners in `unseen`: those of another uid or whose descriptors cannot be listed, and those
      that came into being behind the scan's back. */
  datatype Step =
    | Damage(disk: Disk)
    | CrashAfterMove
    | Vanish(pid: int)
    | Fork(pid: int, child: int)
    | Open(pid: int)
    | Grab(pid: int)
    | Request(op: Op, now: Time, alive: set<int>, dead: set<int>, killed: seq<int>, left: seq<int>, logged: nat)
    | Begin(pid: int, token: string, force: bool, now: Time, alive: set<int>, logged: nat)
    | Spawn(pid: int, child: int)
    | Sweep(pid: int, dead: set<int>, unseen: set<int>, rcZero: bool)
    | End(pid: int, ok: bool, why: string, now: Time, alive: set<int>, logged: nat)

  ghost predicate Owns(w: World, pid: int) {
    pid in w.procs && w.locked == Some(w.procs[pid].ofd)
  }

  /** Some processes are gone; the lock is free once nobody shares the description that holds it. */
  ghost function Without(w: World, gone: set<int>): World {
    var procs := w.procs - gone;
    var kept := exists p :: p in procs && w.locked == Some(procs[p].ofd);
    w.(procs := procs, locked := if kept then w.locked else None)
  }

  ghost predicate IsCli(w: World, pid: int) {
    pid in w.procs && w.procs[pid].Cli?
  }

  predicate LaneOp(op: Op) {
    op.DoEnqueue? || op.DoTake? || op.DoRenew? || op.DoRelease? || op.DoStatus?
  }

  ghost predicate Enabled(w: World, s: Step, cfg: Config) {
    match s
    case Damage(disk) => Damaged(disk)
    case CrashAfterMove => Damaged(w.disk)
    case Vanish(pid) => pid in w.procs
    case Fork(pid, child) => pid in w.procs && w.procs[pid].Command? && child !in w.procs
    case Open(pid) => pid !in w.procs
    case Grab(pid) => IsCli(w, pid) && w.procs[pid].phase == Opened && w.locked == None
    case Request(op, _, _, _, _, _, _) => LaneOp(op) && Accepts(op, cfg)
    case Begin(pid, token, _, _, _, _) =>
      IsCli(w, pid) && w.procs[pid].phase == Grabbed && token !in w.tokens && cfg.hasRefresh
    case Spawn(pid, child) => IsCli(w, pid) && InRefresh(w.procs[pid].phase) && child !in w.procs
    case Sweep(pid, dead, unseen, _) =>
      && IsCli(w, pid) && w.procs[pid].phase.Running?
      && (forall p :: p in dead ==> Owns(w, p) && p != pid && p !in unseen)
    case End(pid, ok, _, _, _, _) =>
      && IsCli(w, pid) && InRefresh(w.procs[pid].phase) && cfg.hasRefresh
      && (ok ==> w.procs[pid].phase.Settled? && w.procs[pid].phase.ok)
  }

  predicate InRefresh(phase: Phase) {
    phase.Running? || phase.Settled?
  }

  /** A reclaim past the deadline kills owners of the lock, however many it manages. */
  ghost function AfterKill(w: World, now: Time, dead: set<int>): World {
    var refresh := Load(w.disk, now).refresh;
    if w.locked.Some? && refresh.Some? && now >= refresh.value.deadline
    then Without(w, set p | p in dead && Owns(w, p))
    else w
  }

  ghost function ProbeOf(before: World, after: World, killed: seq<int>, left: seq<int>): Probe {
    if before.locked == None then Free else Busy(after.locked == None, killed, left)
  }

  function FirstLines(events: seq<Event>, logged: nat): seq<Event> {
    if logged < |events| then events[..logged] else events
  }

  ghost function Record(w: World, out: Outcome, logged: nat): World {
    w.(disk := out.disk, log := w.log + FirstLines(out.events, logged), history := w.history + out.events)
  }

  ghost function SetPhase(w: World, pid: int, phase: Phase): World
    requires IsCli(w, pid)
  {
    w.(procs := w.procs[pid := w.procs[pid].(phase := phase)])
  }

  ghost function Next(w: World, s: Step, cfg: Config): World {
    if !Enabled(w, s, cfg) then w
    else
      match s
      case Damage(disk) => w.(disk := disk, history := w.history + [Corrupted])
      case CrashAfterMove => w.(disk := Missing)
      case Vanish(pid) => Without(w, {pid})
      case Fork(pid, child) => w.(procs := w.procs[child := w.procs[pid]])
      case Open(pid) => w.(procs := w.procs[pid := Cli(w.nextOfd, Opened)], nextOfd := w.nextOfd + 1)
      case Grab(pid) => SetPhase(w, pid, Grabbed).(locked := Some(w.procs[pid].ofd))
      case Request(op, now, alive, dead, killed, left, logged) =>
        var w' := AfterKill(w, now, dead);
        Record(w', Transact(w.disk, op, cfg, Env(now, alive, ProbeOf(w, w', killed, left), false)), logged)
      case Begin(pid, token, force, now, alive, logged) =>
        var out := Transact(w.disk, DoStart(token, pid, force), cfg, Env(now, alive, Free, true));
        var w' := Record(w.(tokens := w.tokens + {token}), out, logged);
        if out.answer == RefreshBegun && |out.events| <= logged then SetPhase(w', pid, Running(token))
        else Without(w', {pid})
      case Spawn(pid, child) =>
        var t := w.procs[pid].phase.token;
        SetPhase(w.(procs := w.procs[child := Command(w.procs[pid].ofd, t)]), pid, Running(t))
      case Sweep(pid, dead, unseen, rcZero) =>
        var w' := Without(w, dead);
        var clean := forall p :: Owns(w', p) ==> p == pid || p in unseen;
        SetPhase(w', pid, Settled(w.procs[pid].phase.token, rcZero && clean))
      case End(pid, ok, why, now, alive, logged) =>
        var op := DoFinish(w.procs[pid].phase.token, ok, why);
        var out := Transact(w.disk, op, cfg, Env(now, alive, Free, true));
        var w' := Record(w, out, logged);
        if |out.events| <= logged then SetPhase(w', pid, Finished) else Without(w', {pid})
  }

  /** The world after a sequence of steps. */
  ghost function Run(steps: seq<Step>, cfg: Config): World {
    if steps == [] then START
    else Next(Run(steps[..|steps| - 1], cfg), steps[|steps| - 1], cfg)
  }

  predicate Transacts(s: Step) {
    s.Request? || s.Begin? || s.End?
  }

  /** The transaction of a step. */
  ghost function OpOf(w: World, s: Step, cfg: Config): Op
    requires Transacts(s) && Enabled(w, s, cfg)
  {
    match s
    case Request(op, _, _, _, _, _, _) => op
    case Begin(pid, token, force, _, _, _) => DoStart(token, pid, force)
    case End(pid, ok, why, _, _, _) => DoFinish(w.procs[pid].phase.token, ok, why)
  }

  ghost function EnvOf(w: World, s: Step, cfg: Config): Env
    requires Transacts(s) && Enabled(w, s, cfg)
  {
    match s
    case Request(_, now, alive, dead, killed, left, _) =>
      Env(now, alive, ProbeOf(w, AfterKill(w, now, dead), killed, left), false)
    case Begin(_, _, _, now, alive, _) => Env(now, alive, Free, true)
    case End(_, _, _, now, alive, _) => Env(now, alive, Free, true)
  }

  /** Three kinds of step run a transaction, and nothing else of theirs touches the file, the history or
      the log. */
  lemma StepIsTransaction(w: World, s: Step, cfg: Config)
    requires Enabled(w, s, cfg) && Transacts(s)
    ensures var out, w' := Transact(w.disk, OpOf(w, s, cfg), cfg, EnvOf(w, s, cfg)), Next(w, s, cfg);
      && Accepts(OpOf(w, s, cfg), cfg)
      && w'.disk == out.disk
      && w'.history == w.history + out.events
      && w'.log == w.log + FirstLines(out.events, s.logged)
  {
  }

  lemma OtherStepsLogNothing(w: World, s: Step, cfg: Config)
    requires !Transacts(s)
    ensures var w' := Next(w, s, cfg);
      && w'.log == w.log
      && (!s.Damage? ==> w'.history == w.history)
      && (!s.Damage? && !s.CrashAfterMove? ==> w'.disk == w.disk)
  {
  }

  // ---------------------------------------------------------------------------
  // the invariant
  // ---------------------------------------------------------------------------

  /** Processes that can only exist under the lock. */
  predicate Fenced(p: Proc) {
    p.Command? || p.phase != Opened
  }

  /** Processes whose presence means the box is being changed. */
  predicate Working(p: Proc) {
    p.Command? || InRefresh(p.phase)
  }

  ghost predicate LockInv(w: World) {
    && (forall p :: p in w.procs && Fenced(w.procs[p]) ==> w.locked == Some(w.procs[p].ofd))
    && (forall p :: p in w.procs ==> w.procs[p].ofd < w.nextOfd)
    && (forall p, q :: p in w.procs && q in w.procs && p != q && w.procs[p].Cli? && w.procs[q].Cli?
          ==> w.procs[p].ofd != w.procs[q].ofd)
    && (w.locked.Some? ==> w.locked.value < w.nextOfd)
  }

  /** No command exists beside a CLI that has not started its refresh; otherwise all commands belong to the
      same refresh as the CLI in charge. */
  ghost predicate CommandInv(w: World) {
    && (forall p, q :: p in w.procs && q in w.procs && w.procs[p].Command? && w.procs[q].Command?
          ==> w.procs[p].token == w.procs[q].token)
    && (forall c, p :: c in w.procs && p in w.procs && w.procs[c].Cli? && w.procs[p].Command?
          ==> Beside(w.procs[c].phase, w.procs[p].token))
  }

  predicate Beside(phase: Phase, token: string) {
    match phase
    case Opened => true
    case Grabbed => false
    case Running(t) => t == token
    case Settled(t, _) => t == token
    case Finished => true
  }

  ghost predicate ProcInv(w: World) {
    LockInv(w) && CommandInv(w)
  }

  ghost predicate FileInv(w: World, cfg: Config) {
    DiskOk(w.disk) && DiskCapped(w.disk, cfg)
  }

  /** What every step keeps, whoever dies where. */
  ghost predicate BaseInv(w: World, cfg: Config) {
    FileInv(w, cfg) && ProcInv(w)
  }

  ghost predicate DebtInv(w: World) {
    Paid(false, w.history) && Debt(false, w.history) == Unready(StatusOn(w.disk))
  }

  ghost predicate Inv(w: World, cfg: Config) {
    BaseInv(w, cfg) && DebtInv(w)
  }

  /** The one step that can break DebtInv: a transaction dies after it moved a damaged file aside and before
      it saved the dirty record that stands for it. */
  ghost predicate Safe(w: World, s: Step) {
    s == CrashAfterMove ==> !Damaged(w.disk)
  }

  ghost predicate SafeRun(steps: seq<Step>, cfg: Config) {
    steps == [] || (
    && SafeRun(steps[..|steps| - 1], cfg)
    && Safe(Run(steps[..|steps| - 1], cfg), steps[|steps| - 1]))
  }

  // ---------------------------------------------------------------------------
  // the processes and the lock
  // ---------------------------------------------------------------------------

  lemma WithoutKeeps(w: World, gone: set<int>)
    requires ProcInv(w)
    ensures ProcInv(Without(w, gone))
  {
    var w' := Without(w, gone);
    forall p | p in w'.procs && Fenced(w'.procs[p]) ensures w'.locked == Some(w'.procs[p].ofd) {
      assert p in w.procs && w.procs[p] == w'.procs[p];
    }
  }

  lemma ForkKeeps(w: World, pid: int, child: int, cfg: Config)
    requires ProcInv(w) && Enabled(w, Fork(pid, child), cfg)
    ensures ProcInv(Next(w, Fork(pid, child), cfg))
  {
  }

  lemma OpenKeeps(w: World, pid: int, cfg: Config)
    requires ProcInv(w) && Enabled(w, Open(pid), cfg)
    ensures ProcInv(Next(w, Open(pid), cfg))
  {
  }

  lemma GrabKeeps(w: World, pid: int, cfg: Config)
    requires ProcInv(w) && Enabled(w, Grab(pid), cfg)
    ensures ProcInv(Next(w, Grab(pid), cfg))
  {
    assert forall p :: p in w.procs ==> !Fenced(w.procs[p]);
  }

  /** A CLI under the lock is the only one that is past opening the file. */
  lemma OneFencedCli(w: World, pid: int)
    requires LockInv(w) && IsCli(w, pid) && Fenced(w.procs[pid])
    ensures forall c :: c in w.procs && c != pid && w.procs[c].Cli? ==> w.procs[c].phase == Opened
  {
  }

  lemma SpawnKeeps(w: World, pid: int, child: int, cfg: Config)
    requires ProcInv(w) && Enabled(w, Spawn(pid, child), cfg)
    ensures ProcInv(Next(w, Spawn(pid, child), cfg))
  {
    var w' := Next(w, Spawn(pid, child), cfg);
    OneFencedCli(w, pid);
    forall c, p | c in w'.procs && p in w'.procs && w'.procs[c].Cli? && w'.procs[p].Command?
      ensures Beside(w'.procs[c].phase, w'.procs[p].token)
    {
    }
  }

  lemma SweepKeeps(w: World, s: Step, cfg: Config)
    requires ProcInv(w) && s.Sweep? && Enabled(w, s, cfg)
    ensures ProcInv(Next(w, s, cfg))
  {
    WithoutKeeps(w, s.dead);
    OneFencedCli(w, s.pid);
  }

  /** A CLI that has not started its refresh is the only process under the lock. */
  lemma FencedAlone(w: World, pid: int)
    requires ProcInv(w) && IsCli(w, pid) && w.procs[pid].phase == Grabbed
    ensures forall p :: p in w.procs && p != pid ==> !Fenced(w.procs[p])
  {
    forall p | p in w.procs && p != pid ensures !Fenced(w.procs[p]) {
      assert w.procs[p].Command? ==> Beside(w.procs[pid].phase, w.procs[p].token);
    }
  }

  /** A CLI in charge alone starts its refresh, or any CLI in charge is done. */
  lemma SetPhaseKeeps(w: World, pid: int, phase: Phase)
    requires ProcInv(w) && IsCli(w, pid) && Fenced(w.procs[pid])
    requires phase == Finished || (w.procs[pid].phase == Grabbed && phase.Running?)
    ensures ProcInv(SetPhase(w, pid, phase))
  {
    if w.procs[pid].phase == Grabbed {
      FencedAlone(w, pid);
    }
  }

  lemma SameProcs(w: World, w': World)
    requires ProcInv(w) && w'.procs == w.procs && w'.locked == w.locked && w'.nextOfd == w.nextOfd
    ensures ProcInv(w')
  {
  }

  lemma TransactingKeepsProcs(w: World, s: Step, cfg: Config)
    requires ProcInv(w) && Enabled(w, s, cfg) && Transacts(s)
    ensures ProcInv(Next(w, s, cfg))
  {
    var out := Transact(w.disk, OpOf(w, s, cfg), cfg, EnvOf(w, s, cfg));
    match s {
      case Request(_, now, _, dead, _, _, _) =>
        WithoutKeeps(w, set p | p in dead && Owns(w, p));
        SameProcs(AfterKill(w, now, dead), Next(w, s, cfg));
      case Begin(pid, token, _, _, _, logged) =>
        var w' := Record(w.(tokens := w.tokens + {token}), out, logged);
        SameProcs(w, w');
        WithoutKeeps(w', {pid});
        SetPhaseKeeps(w', pid, Running(token));
      case End(pid, _, _, _, _, logged) =>
        var w' := Record(w, out, logged);
        SameProcs(w, w');
        WithoutKeeps(w', {pid});
        SetPhaseKeeps(w', pid, Finished);
    }
  }

  lemma ProcsKept(w: World, s: Step, cfg: Config)
    requires ProcInv(w)
    ensures ProcInv(Next(w, s, cfg))
  {
    if Enabled(w, s, cfg) {
      match s
      case Damage(_) =>
      case CrashAfterMove =>
      case Vanish(pid) => WithoutKeeps(w, {pid});
      case Fork(pid, child) => ForkKeeps(w, pid, child, cfg);
      case Open(pid) => OpenKeeps(w, pid, cfg);
      case Grab(pid) => GrabKeeps(w, pid, cfg);
      case Spawn(pid, child) => SpawnKeeps(w, pid, child, cfg);
      case Sweep(_, _, _, _) => SweepKeeps(w, s, cfg);
      case _ => TransactingKeepsProcs(w, s, cfg);
    }
  }

  // ---------------------------------------------------------------------------
  // each step keeps the file and the lock in order, whoever dies where
  // ---------------------------------------------------------------------------

  lemma FileKept(w: World, s: Step, cfg: Config)
    requires ValidConfig(cfg) && FileInv(w, cfg)
    ensures FileInv(Next(w, s, cfg), cfg)
  {
    if Enabled(w, s, cfg) {
      if Transacts(s) {
        StepIsTransaction(w, s, cfg);
        TransactKeeps(w.disk, OpOf(w, s, cfg), cfg, EnvOf(w, s, cfg));
        TransactCaps(w.disk, OpOf(w, s, cfg), cfg, EnvOf(w, s, cfg));
      } else {
        OtherStepsLogNothing(w, s, cfg);
      }
    }
  }

  lemma BaseStepKeeps(w: World, s: Step, cfg: Config)
    requires ValidConfig(cfg) && BaseInv(w, cfg)
    ensures BaseInv(Next(w, s, cfg), cfg)
  {
    FileKept(w, s, cfg);
    ProcsKept(w, s, cfg);
  }

  lemma {:induction false} BaseRunKeeps(steps: seq<Step>, cfg: Config)
    requires ValidConfig(cfg)
    ensures BaseInv(Run(steps, cfg), cfg)
  {
    if steps != [] {
      var front := steps[..|steps| - 1];
      BaseRunKeeps(front, cfg);
      BaseStepKeeps(Run(front, cfg), steps[|steps| - 1], cfg);
    }
  }

  // ---------------------------------------------------------------------------
  // each safe step keeps the debt in order
  // ---------------------------------------------------------------------------

  lemma DebtKept(w: World, s: Step, cfg: Config)
    requires FileInv(w, cfg) && DebtInv(w) && Safe(w, s)
    ensures DebtInv(Next(w, s, cfg))
  {
    if Enabled(w, s, cfg) {
      if Transacts(s) {
        StepIsTransaction(w, s, cfg);
        var op, env := OpOf(w, s, cfg), EnvOf(w, s, cfg);
        var out := Transact(w.disk, op, cfg, env);
        TransactSettles(w.disk, op, cfg, env);
        DebtConcat(false, w.history, out.events);
        PaidConcat(false, w.history, out.events);
      } else if s.Damage? {
        OneEvent(Debt(false, w.history), Corrupted);
        DebtConcat(false, w.history, [Corrupted]);
        PaidConcat(false, w.history, [Corrupted]);
      } else {
        OtherStepsLogNothing(w, s, cfg);
      }
    }
  }

  lemma StepKeeps(w: World, s: Step, cfg: Config)
    requires ValidConfig(cfg) && Inv(w, cfg) && Safe(w, s)
    ensures Inv(Next(w, s, cfg), cfg)
  {
    BaseStepKeeps(w, s, cfg);
    DebtKept(w, s, cfg);
  }

  lemma {:induction false} RunKeeps(steps: seq<Step>, cfg: Config)
    requires ValidConfig(cfg) && SafeRun(steps, cfg)
    ensures Inv(Run(steps, cfg), cfg)
  {
    if steps != [] {
      var front := steps[..|steps| - 1];
      RunKeeps(front, cfg);
      StepKeeps(Run(front, cfg), steps[|steps| - 1], cfg);
    }
  }

  ghost predicate UsableIffPaid(w: World) {
    (StatusOn(w.disk).Pristine? || StatusOn(w.disk).Held?) <==> !Debt(false, w.history)
  }

  /** So it was at every moment of a run. */
  ghost predicate UsableIffPaidSoFar(steps: seq<Step>, cfg: Config) {
    && UsableIffPaid(Run(steps, cfg))
    && (steps == [] || UsableIffPaidSoFar(steps[..|steps| - 1], cfg))
  }

  /** The safe runs are exactly those in which, at every moment, the box reads as usable if and only if
      no refresh is owed. */
  lemma {:induction false} SafeRunIff(steps: seq<Step>, cfg: Config)
    requires ValidConfig(cfg)
    ensures SafeRun(steps, cfg) <==> UsableIffPaidSoFar(steps, cfg)
  {
    if steps != [] {
      var front, last := steps[..|steps| - 1], steps[|steps| - 1];
      SafeRunIff(front, cfg);
      if SafeRun(front, cfg) {
        RunKeeps(front, cfg);
        if Safe(Run(front, cfg), last) {
          StepKeeps(Run(front, cfg), last, cfg);
        }
      }
    }
  }
}
