/** No hold lasts for ever: the lease, the cap on one hold, and the end of both. */
module BoxLease {
  import opened BoxRecord
  import opened BoxInvariant

  /** The lease never reaches past the cap that was fixed when the box was taken. */
  ghost predicate Capped(r: Rec, cfg: Config) {
    r.holder.Some? ==> r.holder.value.leaseUntil <= r.holder.value.takenAt + cfg.maxHoldS
  }

  ghost predicate DiskCapped(disk: Disk, cfg: Config) {
    Readable(disk) ==> Capped(disk.rec, cfg)
  }

  /** A hold that is alive at `now`: its time is not up, and it is not longer than the cap allows. */
  ghost predicate Running(h: Holder, cfg: Config, now: Time) {
    && 0.0 < h.leaseUntil - now <= cfg.maxHoldS
    && now < h.takenAt + cfg.maxHoldS
  }

  /** A hold survives the liveness check exactly if its process is alive and it has time left, and at most one
      full hold of it, even if the clock was set back since it was taken. */
  lemma ReapEndsHolds(r: Rec, cfg: Config, env: Env)
    requires Consistent(r)
    ensures var h := Reap(r, cfg, env).rec.holder;
      && (h.Some? <==> r.holder.Some? && r.holder.value.pid in env.alive && Running(r.holder.value, cfg, env.now))
      && (h.Some? ==> h == r.holder)
      && (h.None? && r.holder.Some? ==>
            && Reap(r, cfg, env).rec.status == Dirty(r.holder.value.lane)
            && exists cause :: Reclaim(r.holder.value.lane, cause) in Reap(r, cfg, env).events)
  {
    if r.holder.Some? && HoldEnds(r.holder.value, cfg, env).Some? {
      var e := Reclaim(r.holder.value.lane, HoldEnds(r.holder.value, cfg, env).value);
      assert Reap(r, cfg, env).events[0] == e;
    }
  }

  /** Whatever the command, the hold it leaves is capped and alive at the time of the transaction. */
  lemma TransactCaps(disk: Disk, op: Op, cfg: Config, env: Env)
    requires ValidConfig(cfg) && DiskOk(disk) && DiskCapped(disk, cfg) && Accepts(op, cfg)
    ensures var out := Transact(disk, op, cfg, env);
      && DiskCapped(out.disk, cfg)
      && (Readable(out.disk) && out.disk.rec.holder.Some? ==> Running(out.disk.rec.holder.value, cfg, env.now))
  {
    var r := Load(disk, env.now);
    LoadIsConsistent(disk, env.now);
    ReapKeeps(r, cfg, env);
    ReapEndsHolds(r, cfg, env);
    TransactKeeps(disk, op, cfg, env);
    ApplyCaps(Reap(r, cfg, env).rec, op, cfg, env.now);
  }

  lemma ApplyCaps(r: Rec, op: Op, cfg: Config, now: Time)
    requires ValidConfig(cfg) && Accepts(op, cfg) && Capped(r, cfg)
    requires r.holder.Some? ==> Running(r.holder.value, cfg, now)
    ensures var r' := Apply(r, op, cfg, now).rec;
      && Capped(r', cfg)
      && (r'.holder.Some? ==> Running(r'.holder.value, cfg, now))
  {
  }

  /** The first transaction at or after the cap, or after the lease, ends the hold; a renewal that comes
      too late is told so. */
  lemma OverdueHoldEnds(disk: Disk, op: Op, cfg: Config, env: Env)
    requires DiskOk(disk) && Accepts(op, cfg) && Readable(disk) && disk.rec.holder.Some?
    requires var h := disk.rec.holder.value; env.now >= h.leaseUntil || env.now >= h.takenAt + cfg.maxHoldS
    ensures var h, out := disk.rec.holder.value, Transact(disk, op, cfg, env);
      && Readable(out.disk)
      && out.disk.rec.holder.None?
      && (exists cause :: Reclaim(h.lane, cause) in out.events)
      && (op.DoRenew? ==> out.answer == NotHolder)
      && !out.disk.rec.status.Pristine?
  {
    var h := disk.rec.holder.value;
    var reaped := Reap(disk.rec, cfg, env);
    ReapKeeps(disk.rec, cfg, env);
    ReapEndsHolds(disk.rec, cfg, env);
    TransactKeeps(disk, op, cfg, env);
    var cause :| Reclaim(h.lane, cause) in reaped.events;
    assert Reclaim(h.lane, cause) in Transact(disk, op, cfg, env).events;
    assert reaped.touched;
    DirtyStaysUnheld(reaped.rec, op, cfg, env.now);
  }

  lemma DirtyStaysUnheld(r: Rec, op: Op, cfg: Config, now: Time)
    requires Consistent(r) && r.status.Dirty?
    ensures Apply(r, op, cfg, now).rec.holder.None?
    ensures !Apply(r, op, cfg, now).rec.status.Pristine?
    ensures op.DoRenew? ==> Apply(r, op, cfg, now).answer == NotHolder
  {
  }

  /** A renewal in time gives exactly the lease asked for, cut at the cap; nothing else changes. */
  lemma RenewalIsCut(disk: Disk, lane: string, lease: Time, cfg: Config, env: Env)
    requires ValidConfig(cfg) && DiskOk(disk) && Accepts(DoRenew(lane, lease), cfg)
    requires Transact(disk, DoRenew(lane, lease), cfg, env).answer.Extended?
    ensures Readable(disk) && disk.rec.holder.Some? && disk.rec.holder.value.lane == lane
    ensures var h, out := disk.rec.holder.value, Transact(disk, DoRenew(lane, lease), cfg, env);
      && env.now < h.leaseUntil
      && out.disk.File? && out.disk.rec.holder.Some?
      && out.disk.rec.holder.value == h.(leaseUntil := out.answer.until)
      && out.answer.until <= h.takenAt + cfg.maxHoldS
      && out.answer.until <= env.now + lease
      && (out.answer.until == env.now + lease || out.answer.capped)
  {
    var r := Load(disk, env.now);
    LoadIsConsistent(disk, env.now);
    ReapEndsHolds(r, cfg, env);
  }

  /** A lane that polls at least every half time-to-live, and answers within the other half, keeps its
      entry through every liveness check in between. */
  lemma PollingKeepsEntry(e: Entry, poll: Time, delay: Time, cfg: Config, env: Env)
    requires poll <= cfg.queueTtlS / 2.0 && delay < cfg.queueTtlS / 2.0
    requires e.pid in env.alive && e.seenAt <= env.now <= e.seenAt + poll + delay
    requires ValidConfig(cfg)
    ensures !Lapsed(e, cfg, env)
  {
  }
}
