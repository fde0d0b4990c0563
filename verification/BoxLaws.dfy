/** What the liveness rules and the commands do, rule by rule, said of the record's own fields: which hold,
    refresh or entry survives, who gets the box and for how long, and which lines are logged in which order. */
module BoxLaws {
  import opened BoxRecord
  import opened BoxInvariant
  import opened BoxFifo
  import opened Options
  import Seqs

  // ---------------------------------------------------------------------------
  // the liveness rules
  // ---------------------------------------------------------------------------

  /** A hold survives exactly if its process is alive, its lease and its cap still run, and the lease does not
      reach further ahead than one full hold (as it would after the clock was set back). */
  lemma HoldSurvivesIff(r: Rec, cfg: Config, env: Env)
    requires r.holder.Some?
    ensures var h, reaped := r.holder.value, Reap(r, cfg, env).rec;
      && (reaped.holder == r.holder <==>
            && h.pid in env.alive
            && env.now < h.leaseUntil
            && env.now < h.takenAt + cfg.maxHoldS
            && h.leaseUntil <= env.now + cfg.maxHoldS)
      && (reaped.holder != r.holder ==> reaped.holder == None)
  {
  }

  /** The end of a hold is logged with its cause, the first that applies: a dead process, the cap, the lease, a
      lease in the future. */
  lemma HoldEndsWithCause(r: Rec, cfg: Config, env: Env)
    requires Consistent(r) && r.holder.Some? && Reap(r, cfg, env).rec.holder == None
    ensures var h, c := r.holder.value, Reap(r, cfg, env);
      var cause := if h.pid !in env.alive then HolderDead
                   else if h.takenAt + cfg.maxHoldS <= env.now then MaxHoldExceeded
                   else if h.leaseUntil <= env.now then LeaseExpired
                   else LeaseInFuture;
      && c.events != [] && c.events[0] == Reclaim(h.lane, cause)
      && c.rec.status == Dirty(h.lane) && c.rec.reason == Reclaimed(cause) && c.touched
  {
  }

  /** A recorded refresh survives a liveness check exactly if its lock is owned and its deadline has not
      passed, or the owners outlived the attempt to kill them. A refresh CLI that holds the lock itself skips
      the rule. One that ends leaves the box under the dirty label it came from. */
  lemma RefreshSurvivesIff(r: Rec, cfg: Config, env: Env)
    requires Consistent(r) && r.refresh.Some?
    ensures var f, c := r.refresh.value, Reap(r, cfg, env);
      var survives := env.ownRefresh || (env.probe.Busy? && (env.now < f.deadline || !env.probe.freed));
      && (survives ==> c.rec.refresh == r.refresh && c.rec.status == Refreshing)
      && (!survives ==>
            var to := if f.from.Dirty? then f.from else Dirty("refresh");
            && c.rec.refresh == None && c.rec.status == to && RefreshLost(to) in c.events && c.touched)
  {
    ReapedEvents(r, cfg, env);
    if !env.ownRefresh && RefreshEnds(r.refresh.value, env).Some? {
      var lost := ReapRefresh(r, env).events;
      assert lost[0] in lost;
      Seqs.InConcat(lost, Drops(r.queue, cfg, env), lost[0]);
    }
  }

  /** Why it ended: its lock came free, with its process dead or not, or its owners were killed. */
  lemma RefreshEndsWithCause(r: Rec, cfg: Config, env: Env)
    requires Consistent(r) && r.refresh.Some? && Reap(r, cfg, env).rec.refresh == None
    ensures Reap(r, cfg, env).rec.reason == Interrupted(
      if env.probe.Busy? then DeadlineKilled(env.probe.killed)
      else if r.refresh.value.pid in env.alive then LockReleased
      else RefresherDied)
  {
  }

  /** A refresh past its deadline whose owners could not be killed is noted with them, and logged once per
      note. */
  lemma LateRefreshIsNoted(r: Rec, cfg: Config, env: Env)
    requires Consistent(r) && r.refresh.Some? && Reap(r, cfg, env).rec.refresh.Some?
    ensures var c := Reap(r, cfg, env);
      var late := !env.ownRefresh && r.refresh.value.deadline <= env.now;
      && c.rec.reason == (if late then PastDeadline(env.probe.left) else r.reason)
      && (RefreshLate in c.events <==> late && r.reason != PastDeadline(env.probe.left))
  {
    ReapedEvents(r, cfg, env);
    DropsAreDrops(r.queue, cfg, env);
    Seqs.InConcat(ReapRefresh(r, env).events, Drops(r.queue, cfg, env), RefreshLate);
  }

  lemma ReapedEvents(r: Rec, cfg: Config, env: Env)
    requires Consistent(r) && r.refresh.Some?
    ensures Reap(r, cfg, env).events == ReapRefresh(r, env).events + Drops(r.queue, cfg, env)
  {
    Seqs.Nothing(ReapRefresh(r, env).events);
  }

  lemma {:induction false} DropsAreDrops(q: seq<Entry>, cfg: Config, env: Env)
    ensures forall e :: e in Drops(q, cfg, env) ==> e.Drop?
  {
    if q != [] { DropsAreDrops(q[..|q| - 1], cfg, env); }
  }

  /** A waiting entry survives exactly if its process is alive and it was last seen less than one time-to-live
      ago (and not further than that ahead). */
  lemma EntrySurvivesIff(r: Rec, e: Entry, cfg: Config, env: Env)
    requires Consistent(r) && e in r.queue
    ensures e in Reap(r, cfg, env).rec.queue <==>
      && e.pid in env.alive
      && env.now < e.seenAt + cfg.queueTtlS
      && e.seenAt <= env.now + cfg.queueTtlS
    ensures e !in Reap(r, cfg, env).rec.queue ==> Drop(e.lane) in Reap(r, cfg, env).events && Reap(r, cfg, env).touched
  {
    SurvivorsAreEntries(r.queue, cfg, env);
    ReapHolderKeeps(r, cfg, env);
    ReapRefreshKeeps(ReapHolder(r, cfg, env).rec, env);
    if Lapsed(e, cfg, env) {
      var i :| 0 <= i < |r.queue| && r.queue[i] == e;
      DropsAreLapsed(r.queue, cfg, env, i);
      var held := ReapHolder(r, cfg, env);
      var refreshed := ReapRefresh(held.rec, env);
      Seqs.InConcat(held.events + refreshed.events, Drops(r.queue, cfg, env), Drop(e.lane));
    }
  }

  /** Nobody else enters the queue in a liveness check, and no lane is dropped that stays. */
  lemma OnlyLapsedAreDropped(r: Rec, lane: string, cfg: Config, env: Env)
    requires Consistent(r)
    ensures forall e :: e in Reap(r, cfg, env).rec.queue ==> e in r.queue
    ensures Drop(lane) in Reap(r, cfg, env).events ==>
      && Waits(r.queue, lane) && !Waits(Reap(r, cfg, env).rec.queue, lane)
  {
    SurvivorsAreEntries(r.queue, cfg, env);
    ReapHolderKeeps(r, cfg, env);
    var held := ReapHolder(r, cfg, env);
    var refreshed := ReapRefresh(held.rec, env);
    ReapRefreshKeeps(held.rec, env);
    Seqs.InConcat(held.events + refreshed.events, Drops(r.queue, cfg, env), Drop(lane));
    Seqs.InConcat(held.events, refreshed.events, Drop(lane));
    if Drop(lane) in Reap(r, cfg, env).events {
      DroppedIsGone(r.queue, cfg, env, lane);
      var i := LapsedAreDropped(r.queue, cfg, env, Drop(lane));
    }
  }

  // ---------------------------------------------------------------------------
  // the commands, on the record that the liveness rules leave
  // ---------------------------------------------------------------------------

  /** The head of the queue, or anybody when it is empty. */
  predicate IsNext(r: Rec, lane: string) { r.queue == [] || r.queue[0].lane == lane }

  /** An attempt to take succeeds exactly if the box is pristine and the lane is next. The hold then runs for
      as long as was asked for, cut at the cap; only the lane's own entry leaves the queue. */
  lemma TakeSucceedsIff(r: Rec, lane: string, pid: int, lease: Time, cfg: Config, now: Time)
    requires Consistent(r) && !(r.holder.Some? && r.holder.value.lane == lane)
    ensures var c := Apply(r, DoTake(lane, pid, lease), cfg, now);
      && (c.answer.Took? <==> r.status == Pristine && IsNext(r, lane))
      && (c.answer.Took? ==>
            var until := if lease <= cfg.maxHoldS then now + lease else now + cfg.maxHoldS;
            && c.answer.until == until
            && c.rec.holder == Some(Holder(lane, pid, now, until))
            && c.rec.status == Held(lane) && c.rec.reason == NoReason && c.rec.refresh == r.refresh
            && c.rec.queue == (if r.queue == [] then [] else r.queue[1..])
            && c.events == (if r.queue == [] then [Enqueued(lane)] else []) + [Taken(lane)]
            && c.touched)
  {
    var i := IndexOf(r.queue, lane);
    if r.status == Pristine && IsNext(r, lane) {
      assert r.queue != [] ==> i == 0;
      var q := Join(r, lane, pid, now).queue;
      assert q[1..] == if r.queue == [] then [] else r.queue[1..];
    }
  }

  /** A lease may be asked for exactly if it is a positive one that a take of the free box gives in full; and a
      take is accepted exactly if an enqueue of the lane and a renewal for that lease are. */
  lemma AcceptedLeaseIsGivenInFull(r: Rec, lane: string, pid: int, lease: Time, cfg: Config, now: Time)
    requires Consistent(r) && r.status == Pristine && r.queue == []
    ensures Accepts(DoRenew(lane, lease), cfg) <==>
      && IsLane(lane) && 0.0 < lease
      && Apply(r, DoTake(lane, pid, lease), cfg, now).answer == Took(now + lease)
    ensures Accepts(DoTake(lane, pid, lease), cfg) <==>
      Accepts(DoEnqueue(lane, pid), cfg) && Accepts(DoRenew(lane, lease), cfg)
  {
    TakeSucceedsIff(r, lane, pid, lease, cfg, now);
  }

  /** One that does not, and an enqueue, leave the lane waiting: its own entry seen anew where it stands, or a
      new one at the end. Nothing else changes. */
  lemma PollKeepsPlace(r: Rec, op: Op, cfg: Config, now: Time)
    requires Consistent(r) && (op.DoTake? || op.DoEnqueue?)
    requires !(r.holder.Some? && r.holder.value.lane == op.lane)
    requires op.DoTake? ==> !(r.status == Pristine && IsNext(r, op.lane))
    ensures var c := Apply(r, op, cfg, now);
      && c.rec.(queue := r.queue) == r && c.touched
      && if k :| 0 <= k < |r.queue| && r.queue[k].lane == op.lane then
           && c.rec.queue == r.queue[k := Entry(op.lane, op.pid, r.queue[k].enqueuedAt, now)]
           && c.events == [] && c.answer == Waiting(k + 1)
         else
           && c.rec.queue == r.queue + [Entry(op.lane, op.pid, now, now)]
           && c.events == [Enqueued(op.lane)] && c.answer == Waiting(|r.queue| + 1)
  {
  }

  /** A holder that asks for its box again changes nothing and is told the end of its lease. */
  lemma HolderTakesAgain(r: Rec, lane: string, pid: int, lease: Time, cfg: Config, now: Time)
    requires r.holder.Some? && r.holder.value.lane == lane
    ensures var end := r.holder.value.leaseUntil;
      Apply(r, DoTake(lane, pid, lease), cfg, now) == Change(r, [], AlreadyHolds(end), false)
    ensures Apply(r, DoEnqueue(lane, pid), cfg, now) == Change(r, [], Waiting(0), false)
  {
  }

  /** A renewal by the holder moves the end of its lease to what was asked for, cut at the cap of its hold, and
      says whether it was cut. Anybody else is refused, and nothing changes. */
  lemma RenewalIs(r: Rec, lane: string, lease: Time, cfg: Config, now: Time)
    ensures var c := Apply(r, DoRenew(lane, lease), cfg, now);
      if r.holder.Some? && r.holder.value.lane == lane then
        var h := r.holder.value;
        var cut := h.takenAt + cfg.maxHoldS < now + lease;
        var until := if cut then h.takenAt + cfg.maxHoldS else now + lease;
        var renewed := Some(Holder(lane, h.pid, h.takenAt, until));
        c == Change(r.(holder := renewed), [Renewed(lane)], Extended(until, cut), true)
      else c == Change(r, [], NotHolder, false)
  {
  }

  /** The holder hands the box back pristine or under its own dirty label; nothing else of the record changes. */
  lemma HandBackIs(r: Rec, lane: string, clean: bool, note: string, cfg: Config, now: Time)
    requires r.holder.Some? && r.holder.value.lane == lane
    ensures var c := Apply(r, DoRelease(lane, clean, note), cfg, now);
      && c.rec.holder == None && c.rec.queue == r.queue && c.rec.refresh == r.refresh && c.touched
      && c.rec.status == (if clean then Pristine else Dirty(lane))
      && c.rec.reason == (if clean then NoReason else ReleasedDirty(note))
      && c.events == [Released(lane, clean)]
  {
  }

  /** A release by a lane that waits takes its entry out and leaves the others in their order; by one that
      does neither, it changes nothing. */
  lemma WithdrawalIs(r: Rec, lane: string, clean: bool, note: string, cfg: Config, now: Time)
    requires Consistent(r) && !(r.holder.Some? && r.holder.value.lane == lane)
    ensures var c := Apply(r, DoRelease(lane, clean, note), cfg, now);
      if k :| 0 <= k < |r.queue| && r.queue[k].lane == lane then
        c == Change(r.(queue := r.queue[..k] + r.queue[k + 1..]), [Withdrawn(lane)], LeftQueue, true)
      else c == Change(r, [], NeitherHoldsNorWaits, false)
  {
  }

  /** A refresh starts exactly on a box that is not held and is dirty, refreshing with nobody left, or forced.
      It is stamped with its token, its process and a deadline: the time-outs of its commands, one pause and a
      minute on top. */
  lemma RefreshStartsIff(r: Rec, token: string, pid: int, force: bool, cfg: Config, now: Time)
    requires Consistent(r)
    ensures var c := Apply(r, DoStart(token, pid, force), cfg, now);
      var from := if r.status != Refreshing then r.status
                  else if r.refresh.value.from.Dirty? then r.refresh.value.from
                  else Dirty("refresh");
      && (c.answer == RefreshBegun <==> r.holder == None && (r.status == Pristine ==> force))
      && (c.answer == RefreshBegun ==>
            var deadline := now + cfg.refreshTimeoutS + cfg.healthTimeoutS + cfg.healthIntervalS + 60.0;
            && c.rec == r.(status := Refreshing, refresh := Some(Refresh(token, pid, now, deadline, from)))
            && c.events == (if r.status == Refreshing then [RefreshLost(from)] else []) + [RefreshStarted(from)]
            && c.touched)
      && (c.answer != RefreshBegun ==> c.rec == r && c.events == [] && !c.touched)
  {
  }

  /** A result counts exactly for the refresh that is recorded: a success leaves the box pristine, a failure
      leaves it under the dirty label it came from, with the reason. */
  lemma ResultCountsIff(r: Rec, token: string, ok: bool, why: string, cfg: Config, now: Time)
    requires Consistent(r)
    ensures var c := Apply(r, DoFinish(token, ok, why), cfg, now);
      if r.refresh.Some? && r.refresh.value.token == token then
        var from := r.refresh.value.from;
        var to := if ok then Pristine else if from.Dirty? then from else Dirty("refresh");
        && c.rec == r.(refresh := None, status := to, reason := if ok then NoReason else RefreshFailure(why))
        && c.events == [if ok then RefreshOk else RefreshFailed(to)] && c.touched
        && c.answer == (if ok then RefreshedOk else RefreshedBadly)
      else c == Change(r, [], ResultDiscarded, false)
  {
  }

  // ---------------------------------------------------------------------------
  // a whole transaction
  // ---------------------------------------------------------------------------

  /** The commands act on the record that the liveness rules leave, and its lines follow theirs. */
  lemma CommandSeesReaped(disk: Disk, op: Op, cfg: Config, env: Env)
    requires DiskOk(disk) && Accepts(op, cfg)
    ensures var reaped := Reap(Load(disk, env.now), cfg, env);
      var c, out := Apply(reaped.rec, op, cfg, env.now), Transact(disk, op, cfg, env);
      && out.answer == c.answer
      && Load(out.disk, env.now).(updatedAt := 0.0) == c.rec.(updatedAt := 0.0)
      && out.events == (if Damaged(disk) then [CorruptFound] else []) + reaped.events + c.events
  {
    TransactKeeps(disk, op, cfg, env);
  }

  /** The file is written exactly when there is something to write: it was damaged, a liveness rule fired, or
      the command changed the record. What is written carries the time of the transaction; if not, the very
      same file is left and nothing is logged. */
  lemma WrittenIff(disk: Disk, op: Op, cfg: Config, env: Env)
    requires DiskOk(disk) && Accepts(op, cfg)
    ensures var out, reaped := Transact(disk, op, cfg, env), Reap(Load(disk, env.now), cfg, env);
      if Damaged(disk) || reaped.touched || Apply(reaped.rec, op, cfg, env.now).touched then
        out.disk.File? && out.disk.rec.updatedAt == env.now
      else out.disk == disk && out.events == []
  {
    LoadIsConsistent(disk, env.now);
    ReapKeeps(Load(disk, env.now), cfg, env);
    QuietReap(Load(disk, env.now), cfg, env);
    ApplyKeeps(Reap(Load(disk, env.now), cfg, env).rec, op, cfg, env.now);
  }

  lemma QuietReap(r: Rec, cfg: Config, env: Env)
    ensures Reap(r, cfg, env).touched <==> Reap(r, cfg, env).events != []
  {
  }

  /** A status query on a box to which nothing has happened writes nothing. */
  lemma QuietQueryWritesNothing(disk: Disk, cfg: Config, env: Env)
    requires DiskOk(disk) && !Damaged(disk)
    requires Reap(Load(disk, env.now), cfg, env).events == []
    ensures Transact(disk, DoStatus, cfg, env).disk == disk
    ensures Transact(disk, DoStatus, cfg, env).answer == Snapshot(Load(disk, env.now))
  {
    LoadIsConsistent(disk, env.now);
    QuietReap(Load(disk, env.now), cfg, env);
    ReapKeeps(Load(disk, env.now), cfg, env);
  }

  /** The order of the lines of one transaction: the damage it found, the hold it ended, what became of the
      refresh, the lanes it dropped, and then the command's own. */
  function Place(e: Event): nat {
    match e
    case Corrupted => 0
    case CorruptFound => 0
    case Reclaim(_, _) => 1
    case RefreshLost(_) => 2
    case RefreshLate => 2
    case Drop(_) => 3
    case _ => 4
  }

  predicate InPlace(events: seq<Event>, from: nat, to: nat) {
    events == [] || (from <= Place(events[0]) <= to && InPlace(events[1..], Place(events[0]), to))
  }

  lemma {:induction false} InPlaceConcat(a: seq<Event>, b: seq<Event>, from: nat, mid: nat, to: nat)
    requires InPlace(a, from, mid) && InPlace(b, mid, to) && from <= mid <= to
    ensures InPlace(a + b, from, to)
  {
    if a == [] {
      Seqs.Nothing(b);
      InPlaceEarlier(b, from, mid, to);
    } else {
      Seqs.FirstOfConcat(a, b);
      InPlaceConcat(a[1..], b, Place(a[0]), mid, to);
    }
  }

  lemma InPlaceEarlier(b: seq<Event>, from: nat, mid: nat, to: nat)
    requires InPlace(b, mid, to) && from <= mid
    ensures InPlace(b, from, to)
  {
  }

  lemma LinesAreOrdered(disk: Disk, cfg: Config, env: Env)
    ensures InPlace(LoadEvents(disk) + Reap(Load(disk, env.now), cfg, env).events, 0, 3)
  {
    var r := Load(disk, env.now);
    RulesInPlace(r, cfg, env);
    InPlaceConcat(LoadEvents(disk), Reap(r, cfg, env).events, 0, 0, 3);
  }

  lemma RulesInPlace(r: Rec, cfg: Config, env: Env)
    ensures InPlace(Reap(r, cfg, env).events, 0, 3)
  {
    var held := ReapHolder(r, cfg, env);
    var refreshed := ReapRefresh(held.rec, env);
    AtMostOneLine(held.events, 0, 1);
    AtMostOneLine(refreshed.events, 1, 2);
    DropsInPlace(refreshed.rec.queue, cfg, env);
    InPlaceConcat(held.events, refreshed.events, 0, 1, 2);
    InPlaceConcat(held.events + refreshed.events, Drops(refreshed.rec.queue, cfg, env), 0, 2, 3);
  }

  lemma AtMostOneLine(events: seq<Event>, from: nat, to: nat)
    requires |events| <= 1 && (events != [] ==> from <= Place(events[0]) <= to)
    ensures InPlace(events, from, to)
  {
    if events != [] {
      assert events[1..] == [];
    }
  }

  lemma {:induction false} DropsInPlace(q: seq<Entry>, cfg: Config, env: Env)
    ensures InPlace(Drops(q, cfg, env), 2, 3)
  {
    if q != [] {
      DropsInPlace(q[..|q| - 1], cfg, env);
      var last := if Lapsed(q[|q| - 1], cfg, env) then [Drop(q[|q| - 1].lane)] else [];
      AtMostOneLine(last, 3, 3);
      InPlaceConcat(Drops(q[..|q| - 1], cfg, env), last, 2, 3, 3);
    }
  }

  // ---------------------------------------------------------------------------
  // what counts as damaged
  // ---------------------------------------------------------------------------

  /** A file is damaged exactly if it is no record, or one that contradicts itself: a status of no known shape,
      a held box without its holder or a holder of another box, a refreshing box without its refresh or a
      refresh of another, one lane waiting twice, or a name that is no lane's. */
  lemma DamagedIff(r: Rec)
    ensures Damaged(Garbage) && !Damaged(Missing)
    ensures Damaged(File(r)) <==>
      || r.status.Other?
      || (r.status.Held? && (r.holder == None || r.holder.value.lane != r.status.lane))
      || (r.holder.Some? && !r.status.Held?)
      || (r.status == Refreshing && r.refresh == None)
      || (r.refresh.Some? && r.status != Refreshing)
      || (exists i, j :: 0 <= i < j < |r.queue| && r.queue[i].lane == r.queue[j].lane)
      || (exists i :: 0 <= i < |r.queue| && !IsLane(r.queue[i].lane))
      || (r.holder.Some? && !IsLane(r.holder.value.lane))
  {
    assert forall e :: e in r.queue ==> exists i :: 0 <= i < |r.queue| && r.queue[i] == e;
  }

  predicate MayFollow(c: char) {
    || 'A' <= c <= 'Z' || 'a' <= c <= 'z' || '0' <= c <= '9'
    || c == '.' || c == '_' || c == '#' || c == '@' || c == '+' || c == '/' || c == '-'
  }

  /** Lane names, grown one character at a time from a letter or digit. */
  lemma LaneNamesGrow(lane: string, c: char)
    ensures IsLane([c]) <==> 'A' <= c <= 'Z' || 'a' <= c <= 'z' || '0' <= c <= '9'
    ensures !IsLane("")
    ensures lane != "" && lane[|lane| - 1] != '\n' && c != '\n' ==> (
      IsLane(lane + [c]) <==> (IsLane(lane) && |lane| < 128 && MayFollow(c)))
    ensures lane != "" && lane[|lane| - 1] != '\n' ==> (IsLane(lane + "\n") <==> IsLane(lane))
  {
    var name := [c];
    assert name[..0] == "";
    assert (lane + [c])[..|lane|] == lane;
    Seqs.SnocAt(lane, c);
    assert (lane + "\n")[..|lane|] == lane;
  }
}
