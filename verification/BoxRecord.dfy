/** The persistent record of one shared box (`<box>.json`), its validity check, and every change a
    transaction may make to it, as functions. BoxTransitions.dfy performs the same changes in place. */
module BoxRecord {
  import opened Options

  type Time = real

  /** The `state` string. Other is any text that is none of the four shapes the tool writes. */
  datatype Status = Pristine | Held(lane: string) | Dirty(owner: string) | Refreshing | Other(text: string)

  datatype Entry = Entry(lane: string, pid: int, enqueuedAt: Time, seenAt: Time)

  datatype Holder = Holder(lane: string, pid: int, takenAt: Time, leaseUntil: Time)

  datatype Refresh = Refresh(token: string, pid: int, startedAt: Time, deadline: Time, from: Status)

  /** Why a box reads as it does; the wording of the messages is not modelled. */
  datatype Reason =
    | NoReason
    | Reclaimed(cause: HoldEnd)
    | Interrupted(loss: RefreshLoss)
    | PastDeadline(left: seq<int>)
    | ReleasedDirty(note: string)
    | RefreshFailure(why: string)
    | BadStateFile
    | OtherReason(text: string)

  datatype HoldEnd = HolderDead | MaxHoldExceeded | LeaseExpired | LeaseInFuture

  datatype RefreshLoss = RefresherDied | LockReleased | DeadlineKilled(killed: seq<int>)

  datatype Rec = Rec(
    status: Status,
    queue: seq<Entry>,
    holder: Option<Holder>,
    refresh: Option<Refresh>,
    reason: Reason,
    updatedAt: Time)

  /** What is on disk: no file, a file that is no record at all, or a record (perhaps inconsistent). */
  datatype Disk = Missing | Garbage | File(rec: Rec)

  datatype Config = Config(
    leaseS: Time,
    maxHoldS: Time,
    queueTtlS: Time,
    refreshTimeoutS: Time,
    healthTimeoutS: Time,
    healthIntervalS: Time,
    hasRefresh: bool)

  /** What `load_config` accepts. */
  ghost predicate ValidConfig(cfg: Config) {
    && 0.0 < cfg.leaseS <= cfg.maxHoldS
    && 0.0 < cfg.queueTtlS
    && 0.0 < cfg.refreshTimeoutS
    && 0.0 < cfg.healthTimeoutS
    && 0.0 < cfg.healthIntervalS
  }

  /** One line of the decision log. Corrupted is not logged by the tool: it marks, in a run, the
      moment the file on disk was damaged. */
  datatype Event =
    | Corrupted
    | CorruptFound
    | Reclaim(lane: string, cause: HoldEnd)
    | RefreshLost(to: Status)
    | RefreshLate
    | Drop(lane: string)
    | Enqueued(lane: string)
    | Taken(lane: string)
    | Renewed(lane: string)
    | Released(lane: string, clean: bool)
    | Withdrawn(lane: string)
    | RefreshStarted(from: Status)
    | RefreshOk
    | RefreshFailed(to: Status)

  datatype Answer =
    | UsageError
    | AlreadyHolds(until: Time)
    | Waiting(position: nat)
    | Took(until: Time)
    | Extended(until: Time, capped: bool)
    | NotHolder
    | HandedBack(status: Status)
    | LeftQueue
    | NeitherHoldsNorWaits
    | HeldBoxRefused
    | AlreadyPristine
    | RefreshBegun
    | ResultDiscarded
    | RefreshedOk
    | RefreshedBadly
    | Snapshot(rec: Rec)

  /** The outcome of one change: the record, the log lines, what the caller is told, and whether the
      change asks for the record to be saved. */
  datatype Change = Change(rec: Rec, events: seq<Event>, answer: Answer, touched: bool)

  // ---------------------------------------------------------------------------
  // names
  // ---------------------------------------------------------------------------

  predicate IsAlphanumeric(c: char) {
    'A' <= c <= 'Z' || 'a' <= c <= 'z' || '0' <= c <= '9'
  }

  /** A lane name: a letter or digit, then up to 127 letters, digits or `._#@+/-`. The source matches
      with `$`, which also lets one final newline through. */
  predicate IsLane(lane: string) {
    var name := if |lane| > 0 && lane[|lane| - 1] == '\n' then lane[..|lane| - 1] else lane;
    && 1 <= |name| <= 128
    && IsAlphanumeric(name[0])
    && forall c :: c in name ==> IsAlphanumeric(c) || c in "._#@+/-"
  }

  // ---------------------------------------------------------------------------
  // validity
  // ---------------------------------------------------------------------------

  predicate DistinctLanes(q: seq<Entry>) {
    forall i, j :: 0 <= i < j < |q| ==> q[i].lane != q[j].lane
  }

  predicate ValidHolder(r: Rec) {
    match r.holder
    case Some(h) => IsLane(h.lane) && r.status == Held(h.lane)
    case None => !r.status.Held?
  }

  /** The structural and cross-field check every load makes. */
  predicate Valid(r: Rec) {
    && (forall e :: e in r.queue ==> IsLane(e.lane))
    && DistinctLanes(r.queue)
    && ValidHolder(r)
    && (r.refresh.Some? <==> r.status == Refreshing)
    && !r.status.Other?
  }

  /** What every saved record satisfies: validity, and the holder does not wait in its own queue. */
  predicate Consistent(r: Rec) {
    && Valid(r)
    && (r.holder.Some? ==> forall e :: e in r.queue ==> e.lane != r.holder.value.lane)
  }

  function Fresh(now: Time): Rec {
    Rec(Pristine, [], None, None, NoReason, now)
  }

  function FreshDirty(now: Time): Rec {
    Rec(Dirty("unknown"), [], None, None, BadStateFile, now)
  }

  predicate Readable(disk: Disk) {
    disk.File? && Valid(disk.rec)
  }

  predicate Damaged(disk: Disk) {
    !disk.Missing? && !Readable(disk)
  }

  /** The record a transaction starts from. */
  function Load(disk: Disk, now: Time): Rec {
    if disk.Missing? then Fresh(now)
    else if Readable(disk) then disk.rec
    else FreshDirty(now)
  }

  function LoadEvents(disk: Disk): seq<Event> {
    if Damaged(disk) then [CorruptFound] else []
  }

  // ---------------------------------------------------------------------------
  // liveness reclaims
  // ---------------------------------------------------------------------------

  /** What a probe of the refresh lock says. Busy carries what the kill of its owners achieves, should
      the deadline have passed: whether the lock came free, who was killed, who still owns it. */
  datatype Probe = Free | Busy(freed: bool, killed: seq<int>, left: seq<int>)

  /** The facts a transaction reads from the system. `alive` is the set of pids `_pid_alive` accepts. */
  datatype Env = Env(now: Time, alive: set<int>, probe: Probe, ownRefresh: bool)

  function HoldEnds(h: Holder, cfg: Config, env: Env): Option<HoldEnd> {
    if h.pid !in env.alive then Some(HolderDead)
    else if env.now >= h.takenAt + cfg.maxHoldS then Some(MaxHoldExceeded)
    else if env.now >= h.leaseUntil then Some(LeaseExpired)
    else if h.leaseUntil > env.now + cfg.maxHoldS then Some(LeaseInFuture)
    else None
  }

  function ReapHolder(r: Rec, cfg: Config, env: Env): Change {
    match r.holder
    case None => Change(r, [], Snapshot(r), false)
    case Some(h) =>
      match HoldEnds(h, cfg, env)
      case None => Change(r, [], Snapshot(r), false)
      case Some(cause) =>
        var r' := r.(status := Dirty(h.lane), holder := None, reason := Reclaimed(cause));
        Change(r', [Reclaim(h.lane, cause)], Snapshot(r'), true)
  }

  /** Where a refresh that did not succeed leaves the box: its own dirty label, or `dirty:refresh`. */
  function AfterFailure(from: Status): Status {
    if from.Dirty? then from else Dirty("refresh")
  }

  /** Why a recorded refresh is over, if the lock says so. */
  function RefreshEnds(f: Refresh, env: Env): Option<RefreshLoss> {
    match env.probe
    case Free => Some(if f.pid !in env.alive then RefresherDied else LockReleased)
    case Busy(freed, killed, _) =>
      if env.now >= f.deadline && freed then Some(DeadlineKilled(killed)) else None
  }

  /** The owners of the refresh lock are killed exactly here. */
  predicate KillsOwners(r: Rec, env: Env) {
    && r.refresh.Some?
    && !env.ownRefresh
    && env.probe.Busy?
    && env.now >= r.refresh.value.deadline
  }

  function ReapRefresh(r: Rec, env: Env): Change {
    if r.refresh.None? || env.ownRefresh then Change(r, [], Snapshot(r), false)
    else
      match RefreshEnds(r.refresh.value, env)
      case Some(loss) =>
        var to := AfterFailure(r.refresh.value.from);
        var r' := r.(status := to, refresh := None, reason := Interrupted(loss));
        Change(r', [RefreshLost(to)], Snapshot(r'), true)
      case None =>
        if KillsOwners(r, env) && r.reason != PastDeadline(env.probe.left) then
          var r' := r.(reason := PastDeadline(env.probe.left));
          Change(r', [RefreshLate], Snapshot(r'), true)
        else
          Change(r, [], Snapshot(r), false)
  }

  predicate Lapsed(e: Entry, cfg: Config, env: Env) {
    || e.pid !in env.alive
    || env.now - e.seenAt >= cfg.queueTtlS
    || e.seenAt > env.now + cfg.queueTtlS
  }

  function Survivors(q: seq<Entry>, cfg: Config, env: Env): seq<Entry> {
    if q == [] then []
    else
      var e := q[|q| - 1];
      Survivors(q[..|q| - 1], cfg, env) + if Lapsed(e, cfg, env) then [] else [e]
  }

  function Drops(q: seq<Entry>, cfg: Config, env: Env): seq<Event> {
    if q == [] then []
    else
      var e := q[|q| - 1];
      Drops(q[..|q| - 1], cfg, env) + if Lapsed(e, cfg, env) then [Drop(e.lane)] else []
  }

  /** Every liveness rule, in the order a transaction applies them. */
  function Reap(r: Rec, cfg: Config, env: Env): Change {
    var held := ReapHolder(r, cfg, env);
    var refreshed := ReapRefresh(held.rec, env);
    var q := refreshed.rec.queue;
    var dropped := Drops(q, cfg, env);
    var r' := refreshed.rec.(queue := Survivors(q, cfg, env));
    Change(r', held.events + refreshed.events + dropped, Snapshot(r'),
           held.touched || refreshed.touched || dropped != [])
  }

  // ---------------------------------------------------------------------------
  // the transitions
  // ---------------------------------------------------------------------------

  /** The position of `lane` in the queue, or -1. */
  function IndexOf(q: seq<Entry>, lane: string): (i: int)
    ensures -1 <= i < |q|
    ensures 0 <= i ==> q[i].lane == lane && forall k :: 0 <= k < i ==> q[k].lane != lane
    ensures i < 0 ==> forall k :: 0 <= k < |q| ==> q[k].lane != lane
  {
    if q == [] then -1
    else
      var front := IndexOf(q[..|q| - 1], lane);
      if 0 <= front then front
      else if q[|q| - 1].lane == lane then |q| - 1
      else -1
  }

  function Min(a: Time, b: Time): Time {
    if a <= b then a else b
  }

  predicate Holds(r: Rec, lane: string) {
    r.holder.Some? && r.holder.value.lane == lane
  }

  /** `lane` polled: its entry is refreshed, or appended at the end. */
  function Join(r: Rec, lane: string, pid: int, now: Time): Rec {
    var i := IndexOf(r.queue, lane);
    if 0 <= i then r.(queue := r.queue[i := r.queue[i].(pid := pid, seenAt := now)])
    else r.(queue := r.queue + [Entry(lane, pid, now, now)])
  }

  function JoinEvents(r: Rec, lane: string): seq<Event> {
    if 0 <= IndexOf(r.queue, lane) then [] else [Enqueued(lane)]
  }

  function JoinPosition(r: Rec, lane: string): nat {
    var i := IndexOf(r.queue, lane);
    if 0 <= i then i + 1 else |r.queue| + 1
  }

  function Enqueue(r: Rec, lane: string, pid: int, now: Time): Change {
    if Holds(r, lane) then Change(r, [], Waiting(0), false)
    else Change(Join(r, lane, pid, now), JoinEvents(r, lane), Waiting(JoinPosition(r, lane)), true)
  }

  function Take(r: Rec, lane: string, pid: int, lease: Time, cfg: Config, now: Time): Change {
    if Holds(r, lane) then Change(r, [], AlreadyHolds(r.holder.value.leaseUntil), false)
    else
      var joined := Join(r, lane, pid, now);
      var position := JoinPosition(r, lane);
      if r.status != Pristine || position != 1 then
        Change(joined, JoinEvents(r, lane), Waiting(position), true)
      else
        var until := Min(now + lease, now + cfg.maxHoldS);
        var r' := joined.(queue := joined.queue[1..], holder := Some(Holder(lane, pid, now, until)),
                          status := Held(lane), reason := NoReason);
        Change(r', JoinEvents(r, lane) + [Taken(lane)], Took(until), true)
  }

  function Renew(r: Rec, lane: string, lease: Time, cfg: Config, now: Time): Change {
    if !Holds(r, lane) then Change(r, [], NotHolder, false)
    else
      var h := r.holder.value;
      var cap := h.takenAt + cfg.maxHoldS;
      var until := Min(now + lease, cap);
      Change(r.(holder := Some(h.(leaseUntil := until))), [Renewed(lane)], Extended(until, now + lease > cap), true)
  }

  function RemoveAt(q: seq<Entry>, i: nat): seq<Entry>
    requires i < |q|
  {
    q[..i] + q[i + 1..]
  }

  function Release(r: Rec, lane: string, clean: bool, note: string): Change {
    if Holds(r, lane) then
      var r' := if clean then r.(status := Pristine, reason := NoReason)
                else r.(status := Dirty(lane), reason := ReleasedDirty(note));
      Change(r'.(holder := None), [Released(lane, clean)], HandedBack(r'.status), true)
    else
      var i := IndexOf(r.queue, lane);
      if 0 <= i then Change(r.(queue := RemoveAt(r.queue, i)), [Withdrawn(lane)], LeftQueue, true)
      else Change(r, [], NeitherHoldsNorWaits, false)
  }

  /** A refresh CLI that owns the refresh lock records its start. A `refreshing` record it still finds
      is stale: nobody of that refresh is left, so it is retired first. */
  function StartRefresh(r: Rec, token: string, pid: int, force: bool, cfg: Config, now: Time): Change {
    var stale := r.status == Refreshing && r.refresh.Some?;
    var from := if stale then AfterFailure(r.refresh.value.from) else r.status;
    var retired := if stale then r.(status := from, refresh := None) else r;
    var lost := if stale then [RefreshLost(from)] else [];
    if from.Held? then Change(retired, lost, HeldBoxRefused, false)
    else if from == Pristine && !force then Change(retired, lost, AlreadyPristine, false)
    else
      var r' := retired.(refresh := Some(Refresh(token, pid, now, now + Budget(cfg), from)), status := Refreshing);
      Change(r', lost + [RefreshStarted(from)], RefreshBegun, true)
  }

  const REFRESH_MARGIN_S: Time := 60.0

  function Budget(cfg: Config): Time {
    cfg.refreshTimeoutS + cfg.healthTimeoutS + cfg.healthIntervalS + REFRESH_MARGIN_S
  }

  function FinishRefresh(r: Rec, token: string, ok: bool, why: string): Change {
    if r.status != Refreshing || r.refresh.None? || r.refresh.value.token != token then
      Change(r, [], ResultDiscarded, false)
    else if ok then
      Change(r.(refresh := None, status := Pristine, reason := NoReason), [RefreshOk], RefreshedOk, true)
    else
      var to := AfterFailure(r.refresh.value.from);
      var r' := r.(refresh := None, status := to, reason := RefreshFailure(why));
      Change(r', [RefreshFailed(to)], RefreshedBadly, true)
  }

  // ---------------------------------------------------------------------------
  // the locked transaction
  // ---------------------------------------------------------------------------

  datatype Op =
    | DoEnqueue(lane: string, pid: int)
    | DoTake(lane: string, pid: int, lease: Time)
    | DoRenew(lane: string, lease: Time)
    | DoRelease(lane: string, clean: bool, note: string)
    | DoStatus
    | DoStart(token: string, pid: int, force: bool)
    | DoFinish(token: string, ok: bool, why: string)

  /** The checks every command makes before it opens a transaction. */
  predicate Accepts(op: Op, cfg: Config) {
    match op
    case DoEnqueue(lane, pid) => IsLane(lane) && pid > 1 && cfg.hasRefresh
    case DoTake(lane, pid, lease) => IsLane(lane) && pid > 1 && cfg.hasRefresh && 0.0 < lease <= cfg.maxHoldS
    case DoRenew(lane, lease) => IsLane(lane) && 0.0 < lease <= cfg.maxHoldS
    case DoRelease(lane, _, _) => IsLane(lane)
    case DoStatus => true
    case DoStart(_, _, _) => cfg.hasRefresh
    case DoFinish(_, _, _) => cfg.hasRefresh
  }

  function Apply(r: Rec, op: Op, cfg: Config, now: Time): Change {
    match op
    case DoEnqueue(lane, pid) => Enqueue(r, lane, pid, now)
    case DoTake(lane, pid, lease) => Take(r, lane, pid, lease, cfg, now)
    case DoRenew(lane, lease) => Renew(r, lane, lease, cfg, now)
    case DoRelease(lane, clean, note) => Release(r, lane, clean, note)
    case DoStatus => Change(r, [], Snapshot(r), false)
    case DoStart(token, pid, force) => StartRefresh(r, token, pid, force, cfg, now)
    case DoFinish(token, ok, why) => FinishRefresh(r, token, ok, why)
  }

  /** Load, reap, apply, and save when anything changed. */
  datatype Outcome = Outcome(disk: Disk, events: seq<Event>, answer: Answer)

  function Transact(disk: Disk, op: Op, cfg: Config, env: Env): Outcome {
    var reaped := Reap(Load(disk, env.now), cfg, env);
    var applied := Apply(reaped.rec, op, cfg, env.now);
    var save := Damaged(disk) || reaped.touched || applied.touched;
    Outcome(if save then File(applied.rec.(updatedAt := env.now)) else disk,
            LoadEvents(disk) + reaped.events + applied.events,
            applied.answer)
  }

  /** The status a reader of `disk` sees before any reclaim. */
  function StatusOn(disk: Disk): Status {
    Load(disk, 0.0).status
  }

  function QueueOn(disk: Disk): seq<Entry> {
    Load(disk, 0.0).queue
  }
}
