/** The transitions as the tool performs them: the fields of one loaded record are changed in place and
    log lines are appended. Each method is proved to do what the function of the same name says. */
module BoxTransitions {
  import opened BoxRecord
  import BoxInvariant
  import opened Options

  class Box {
    var status: Status
    var queue: seq<Entry>
    var holder: Option<Holder>
    var refresh: Option<Refresh>
    var reason: Reason
    var updatedAt: Time
    var events: seq<Event>

    function View(): Rec
      reads this
    {
      Rec(status, queue, holder, refresh, reason, updatedAt)
    }

    constructor (r: Rec, log: seq<Event>)
      ensures View() == r && events == log
    {
      status, queue, holder, refresh, reason, updatedAt :=
        r.status, r.queue, r.holder, r.refresh, r.reason, r.updatedAt;
      events := log;
    }

    method ReapHolder(cfg: Config, env: Env) returns (changed: bool)
      modifies this
      ensures var spec := BoxRecord.ReapHolder(old(View()), cfg, env);
        View() == spec.rec && events == old(events) + spec.events && changed == spec.touched
    {
      changed := false;
      if holder.Some? {
        var ends := HoldEnds(holder.value, cfg, env);
        if ends.Some? {
          status := Dirty(holder.value.lane);
          events := events + [Reclaim(holder.value.lane, ends.value)];
          holder, reason := None, Reclaimed(ends.value);
          changed := true;
        }
      }
    }

    method ReapRefresh(env: Env) returns (changed: bool)
      modifies this
      ensures var spec := BoxRecord.ReapRefresh(old(View()), env);
        View() == spec.rec && events == old(events) + spec.events && changed == spec.touched
    {
      changed := false;
      if refresh.Some? && !env.ownRefresh {
        var over := RefreshEnds(refresh.value, env);
        if over.Some? {
          status := AfterFailure(refresh.value.from);
          refresh, reason := None, Interrupted(over.value);
          events := events + [RefreshLost(status)];
          changed := true;
        } else if env.now >= refresh.value.deadline && reason != PastDeadline(env.probe.left) {
          reason := PastDeadline(env.probe.left);
          events := events + [RefreshLate];
          changed := true;
        }
      }
    }

    method ReapQueue(cfg: Config, env: Env) returns (changed: bool)
      modifies this
      ensures View() == old(View()).(queue := Survivors(old(queue), cfg, env))
      ensures events == old(events) + Drops(old(queue), cfg, env)
      ensures changed == (Drops(old(queue), cfg, env) != [])
    {
      changed := false;
      var keep := [];
      for i := 0 to |queue|
        invariant View() == old(View())
        invariant keep == Survivors(queue[..i], cfg, env)
        invariant events == old(events) + Drops(queue[..i], cfg, env)
        invariant changed == (Drops(queue[..i], cfg, env) != [])
      {
        assert queue[..i + 1][..i] == queue[..i];
        if Lapsed(queue[i], cfg, env) {
          events := events + [Drop(queue[i].lane)];
          changed := true;
        } else {
          keep := keep + [queue[i]];
        }
      }
      assert queue[..|queue|] == queue;
      queue := keep;
    }

    /** Every liveness rule: the holder first, then the refresh, then the queue. */
    method Reap(cfg: Config, env: Env) returns (changed: bool)
      modifies this
      ensures var spec := BoxRecord.Reap(old(View()), cfg, env);
        View() == spec.rec && events == old(events) + spec.events && changed == spec.touched
    {
      var held := ReapHolder(cfg, env);
      var refreshed := ReapRefresh(env);
      var dropped := ReapQueue(cfg, env);
      changed := held || refreshed || dropped;
    }

    method Find(lane: string) returns (i: int)
      ensures i == IndexOf(queue, lane)
    {
      i := 0;
      while i < |queue|
        invariant 0 <= i <= |queue|
        invariant forall k :: 0 <= k < i ==> queue[k].lane != lane
      {
        if queue[i].lane == lane {
          return;
        }
        i := i + 1;
      }
      i := -1;
    }

    /** Refresh the lane's entry, or append one; returns its index. */
    method Join(lane: string, pid: int, now: Time) returns (i: nat)
      modifies this
      ensures View() == BoxRecord.Join(old(View()), lane, pid, now)
      ensures events == old(events) + JoinEvents(old(View()), lane)
      ensures i + 1 == JoinPosition(old(View()), lane)
      ensures i < |queue| && queue[i].lane == lane
    {
      var found := Find(lane);
      if 0 <= found {
        queue := queue[found := queue[found].(pid := pid, seenAt := now)];
        i := found;
      } else {
        queue := queue + [Entry(lane, pid, now, now)];
        events := events + [Enqueued(lane)];
        i := |queue| - 1;
      }
    }

    method Enqueue(lane: string, pid: int, now: Time) returns (answer: Answer, touched: bool)
      modifies this
      ensures Does(BoxRecord.Enqueue(old(View()), lane, pid, now), old(events), answer, touched)
    {
      if holder.Some? && holder.value.lane == lane {
        return Waiting(0), false;
      }
      var i := Join(lane, pid, now);
      return Waiting(i + 1), true;
    }

    method Take(lane: string, pid: int, lease: Time, cfg: Config, now: Time) returns (answer: Answer, touched: bool)
      modifies this
      ensures Does(BoxRecord.Take(old(View()), lane, pid, lease, cfg, now), old(events), answer, touched)
    {
      if holder.Some? && holder.value.lane == lane {
        return AlreadyHolds(holder.value.leaseUntil), false;
      }
      var i := Join(lane, pid, now);
      if status != Pristine {
        return Waiting(i + 1), true;
      }
      if i != 0 {
        return Waiting(i + 1), true;
      }
      queue := queue[1..];
      var until := Min(now + lease, now + cfg.maxHoldS);
      holder := Some(Holder(lane, pid, now, until));
      status, reason := Held(lane), NoReason;
      events := events + [Taken(lane)];
      return Took(until), true;
    }

    method Renew(lane: string, lease: Time, cfg: Config, now: Time) returns (answer: Answer, touched: bool)
      modifies this
      ensures Does(BoxRecord.Renew(old(View()), lane, lease, cfg, now), old(events), answer, touched)
    {
      if holder.None? || holder.value.lane != lane {
        return NotHolder, false;
      }
      var cap := holder.value.takenAt + cfg.maxHoldS;
      var until := Min(now + lease, cap);
      holder := Some(holder.value.(leaseUntil := until));
      events := events + [Renewed(lane)];
      return Extended(until, now + lease > cap), true;
    }

    method Release(lane: string, clean: bool, note: string) returns (answer: Answer, touched: bool)
      modifies this
      ensures Does(BoxRecord.Release(old(View()), lane, clean, note), old(events), answer, touched)
    {
      if holder.Some? && holder.value.lane == lane {
        holder := None;
        if clean {
          status, reason := Pristine, NoReason;
        } else {
          status, reason := Dirty(lane), ReleasedDirty(note);
        }
        events := events + [Released(lane, clean)];
        return HandedBack(status), true;
      }
      var left := Withdraw(lane);
      return if left then LeftQueue else NeitherHoldsNorWaits, left;
    }

    /** The lane leaves the queue, if it waits. */
    method Withdraw(lane: string) returns (left: bool)
      modifies this
      ensures left <==> 0 <= IndexOf(old(queue), lane)
      ensures View() == (
        if left then old(View()).(queue := RemoveAt(old(queue), IndexOf(old(queue), lane))) else old(View()))
      ensures events == old(events) + if left then [Withdrawn(lane)] else []
    {
      var i := Find(lane);
      left := 0 <= i;
      if left {
        queue := queue[..i] + queue[i + 1..];
        events := events + [Withdrawn(lane)];
      }
    }

    method StartRefresh(token: string, pid: int, force: bool, cfg: Config, now: Time)
      returns (answer: Answer, touched: bool)
      requires refresh.Some? <==> status == Refreshing
      modifies this
      ensures Does(BoxRecord.StartRefresh(old(View()), token, pid, force, cfg, now), old(events), answer, touched)
    {
      var s := status;
      if s == Refreshing {
        s := AfterFailure(refresh.value.from);
        refresh, status := None, s;
        events := events + [RefreshLost(s)];
      }
      if s.Held? {
        return HeldBoxRefused, false;
      }
      if s == Pristine && !force {
        return AlreadyPristine, false;
      }
      refresh := Some(Refresh(token, pid, now, now + Budget(cfg), s));
      status := Refreshing;
      events := events + [RefreshStarted(s)];
      return RefreshBegun, true;
    }

    method FinishRefresh(token: string, ok: bool, why: string) returns (answer: Answer, touched: bool)
      modifies this
      ensures Does(BoxRecord.FinishRefresh(old(View()), token, ok, why), old(events), answer, touched)
    {
      if status != Refreshing || refresh.None? || refresh.value.token != token {
        return ResultDiscarded, false;
      }
      var from := refresh.value.from;
      refresh := None;
      if ok {
        status, reason := Pristine, NoReason;
        events := events + [RefreshOk];
        return RefreshedOk, true;
      }
      status := AfterFailure(from);
      reason := RefreshFailure(why);
      events := events + [RefreshFailed(status)];
      return RefreshedBadly, true;
    }

    method Perform(op: Op, cfg: Config, now: Time) returns (answer: Answer, touched: bool)
      requires refresh.Some? <==> status == Refreshing
      modifies this
      ensures Does(Apply(old(View()), op, cfg, now), old(events), answer, touched)
    {
      match op {
        case DoEnqueue(lane, pid) => answer, touched := Enqueue(lane, pid, now);
        case DoTake(lane, pid, lease) => answer, touched := Take(lane, pid, lease, cfg, now);
        case DoRenew(lane, lease) => answer, touched := Renew(lane, lease, cfg, now);
        case DoRelease(lane, clean, note) => answer, touched := Release(lane, clean, note);
        case DoStatus => answer, touched := Snapshot(View()), false;
        case DoStart(token, pid, force) => answer, touched := StartRefresh(token, pid, force, cfg, now);
        case DoFinish(token, ok, why) => answer, touched := FinishRefresh(token, ok, why);
      }
    }

    /** The change `spec` was made to this record, and its log lines follow `log`. */
    ghost predicate Does(spec: Change, log: seq<Event>, answer: Answer, touched: bool)
      reads this
    {
      && View() == spec.rec
      && events == log + spec.events
      && answer == spec.answer
      && touched == spec.touched
    }
  }

  /** One locked transaction: load, reap, apply, save when anything changed. */
  method RunTransaction(disk: Disk, op: Op, cfg: Config, env: Env)
    returns (saved: Disk, log: seq<Event>, answer: Answer)
    requires BoxInvariant.DiskOk(disk) && Accepts(op, cfg)
    ensures Outcome(saved, log, answer) == Transact(disk, op, cfg, env)
    ensures BoxInvariant.DiskOk(saved) && !Damaged(saved)
  {
    var found := Load(disk, env.now);
    BoxInvariant.LoadIsConsistent(disk, env.now);
    BoxInvariant.ReapKeeps(found, cfg, env);
    BoxInvariant.TransactKeeps(disk, op, cfg, env);
    var box := new Box(found, LoadEvents(disk));
    var changed := box.Reap(cfg, env);
    var touched;
    answer, touched := box.Perform(op, cfg, env.now);
    if Damaged(disk) || changed || touched {
      box.updatedAt := env.now;
      saved := File(box.View());
    } else {
      saved := disk;
    }
    log := box.events;
  }
}
