/** What every transaction keeps, whatever the clock, the live processes and the lock probe say. */
module BoxInvariant {
  import opened BoxRecord
  import opened Options
  import Seqs

  ghost predicate LaneFree(q: seq<Entry>, lane: string) {
    forall e :: e in q ==> e.lane != lane
  }

  /** Entries of the survivors are the entries that have not lapsed. */
  lemma {:induction false} SurvivorsAreEntries(q: seq<Entry>, cfg: Config, env: Env)
    ensures forall e :: e in Survivors(q, cfg, env) <==> e in q && !Lapsed(e, cfg, env)
    ensures (Drops(q, cfg, env) == []) <==> (Survivors(q, cfg, env) == q)
    ensures |Survivors(q, cfg, env)| + |Drops(q, cfg, env)| == |q|
  {
    if q != [] {
      var front, e := q[..|q| - 1], q[|q| - 1];
      SurvivorsAreEntries(front, cfg, env);
      Seqs.LastOf(q);
      Seqs.SnocAt(front, e);
      Seqs.SnocAt(Survivors(front, cfg, env), e);
      Seqs.Nothing(Survivors(front, cfg, env));
    }
  }

  lemma DistinctFront(q: seq<Entry>)
    requires q != [] && DistinctLanes(q)
    ensures DistinctLanes(q[..|q| - 1]) && LaneFree(q[..|q| - 1], q[|q| - 1].lane)
  {
  }

  lemma DistinctSnoc(s: seq<Entry>, e: Entry)
    requires DistinctLanes(s) && LaneFree(s, e.lane)
    ensures DistinctLanes(s + [e])
  {
    assert forall i :: 0 <= i < |s| ==> s[i] in s;
  }

  /** They are in distinct lanes still. */
  lemma {:induction false} SurvivorsAreDistinct(q: seq<Entry>, cfg: Config, env: Env)
    requires DistinctLanes(q)
    ensures DistinctLanes(Survivors(q, cfg, env))
  {
    if q != [] {
      var front, e := q[..|q| - 1], q[|q| - 1];
      DistinctFront(q);
      SurvivorsAreDistinct(front, cfg, env);
      SurvivorsAreEntries(front, cfg, env);
      var s := Survivors(front, cfg, env);
      if Lapsed(e, cfg, env) {
        Seqs.Nothing(s);
      } else {
        DistinctSnoc(s, e);
      }
    }
  }

  lemma ReapHolderKeeps(r: Rec, cfg: Config, env: Env)
    requires Consistent(r)
    ensures Consistent(ReapHolder(r, cfg, env).rec)
    ensures ReapHolder(r, cfg, env).rec.queue == r.queue
    ensures !ReapHolder(r, cfg, env).touched ==> ReapHolder(r, cfg, env).rec == r
  {
  }

  lemma ReapRefreshKeeps(r: Rec, env: Env)
    requires Consistent(r)
    ensures Consistent(ReapRefresh(r, env).rec)
    ensures ReapRefresh(r, env).rec.queue == r.queue
    ensures !ReapRefresh(r, env).touched ==> ReapRefresh(r, env).rec == r
  {
  }

  lemma ReapKeeps(r: Rec, cfg: Config, env: Env)
    requires Consistent(r)
    ensures Consistent(Reap(r, cfg, env).rec)
    ensures !Reap(r, cfg, env).touched ==> Reap(r, cfg, env).rec == r
  {
    ReapHolderKeeps(r, cfg, env);
    var held := ReapHolder(r, cfg, env).rec;
    ReapRefreshKeeps(held, env);
    SurvivorsAreEntries(r.queue, cfg, env);
    SurvivorsAreDistinct(r.queue, cfg, env);
  }

  lemma JoinKeeps(r: Rec, lane: string, pid: int, now: Time)
    requires Consistent(r) && IsLane(lane) && !Holds(r, lane)
    ensures Consistent(Join(r, lane, pid, now))
  {
    var q := Join(r, lane, pid, now).queue;
    forall e | e in q ensures IsLane(e.lane) {
      var k :| 0 <= k < |q| && q[k] == e;
      if k < |r.queue| {
        assert e.lane == r.queue[k].lane;
      }
    }
    if r.holder.Some? {
      forall e | e in q ensures e.lane != r.holder.value.lane {
        var k :| 0 <= k < |q| && q[k] == e;
        if k < |r.queue| {
          assert e.lane == r.queue[k].lane;
        }
      }
    }
  }

  lemma TakeKeeps(r: Rec, lane: string, pid: int, lease: Time, cfg: Config, now: Time)
    requires Consistent(r) && IsLane(lane)
    ensures Consistent(Take(r, lane, pid, lease, cfg, now).rec)
  {
    if !Holds(r, lane) {
      JoinKeeps(r, lane, pid, now);
      var joined := Join(r, lane, pid, now);
      if r.status == Pristine && JoinPosition(r, lane) == 1 {
        var q := joined.queue;
        assert q[0].lane == lane;
        forall e | e in q[1..] ensures e.lane != lane && IsLane(e.lane) {
          var k :| 1 <= k < |q| && q[k] == e;
        }
      }
    }
  }

  lemma ReleaseKeeps(r: Rec, lane: string, clean: bool, note: string)
    requires Consistent(r)
    ensures Consistent(Release(r, lane, clean, note).rec)
  {
    var i := IndexOf(r.queue, lane);
    if !Holds(r, lane) && 0 <= i {
      var q := RemoveAt(r.queue, i);
      forall e | e in q ensures e in r.queue {
        var k :| 0 <= k < |q| && q[k] == e;
        assert e == if k < i then r.queue[k] else r.queue[k + 1];
      }
    }
  }

  /** Every transition keeps the record consistent, and one that does not ask for a save left the
      record exactly as it found it. */
  lemma ApplyKeeps(r: Rec, op: Op, cfg: Config, now: Time)
    requires Consistent(r) && Accepts(op, cfg)
    ensures Consistent(Apply(r, op, cfg, now).rec)
    ensures !Apply(r, op, cfg, now).touched ==> Apply(r, op, cfg, now).rec == r && Apply(r, op, cfg, now).events == []
  {
    match op
    case DoEnqueue(lane, pid) =>
      if !Holds(r, lane) { JoinKeeps(r, lane, pid, now); }
    case DoTake(lane, pid, lease) => TakeKeeps(r, lane, pid, lease, cfg, now);
    case DoRelease(lane, clean, note) => ReleaseKeeps(r, lane, clean, note);
    case DoRenew(_, _) =>
    case DoStatus =>
    case DoStart(_, _, _) =>
    case DoFinish(_, _, _) =>
  }

  ghost predicate DiskOk(disk: Disk) {
    Readable(disk) ==> Consistent(disk.rec)
  }

  lemma LoadIsConsistent(disk: Disk, now: Time)
    requires DiskOk(disk)
    ensures Consistent(Load(disk, now))
  {
  }

  lemma StampKeeps(r: Rec, now: Time)
    requires Consistent(r)
    ensures Consistent(r.(updatedAt := now))
  {
  }

  /** The invariant of the file: after any transaction it is missing (never saved yet) or a consistent
      record, and reading it back gives the record the transaction ended with. */
  lemma TransactKeeps(disk: Disk, op: Op, cfg: Config, env: Env)
    requires DiskOk(disk) && Accepts(op, cfg)
    ensures var out := Transact(disk, op, cfg, env);
      var final := Apply(Reap(Load(disk, env.now), cfg, env).rec, op, cfg, env.now).rec;
      && DiskOk(out.disk)
      && !Damaged(out.disk)
      && Load(out.disk, env.now).(updatedAt := 0.0) == final.(updatedAt := 0.0)
  {
    LoadIsConsistent(disk, env.now);
    var r := Load(disk, env.now);
    ReapKeeps(r, cfg, env);
    var reaped := Reap(r, cfg, env);
    ApplyKeeps(reaped.rec, op, cfg, env.now);
    var applied := Apply(reaped.rec, op, cfg, env.now);
    StampKeeps(applied.rec, env.now);
  }

  /** A damaged file never passes for a usable box: whatever the command, the transaction that finds
      it saves a record that is dirty, or (a refresh CLI starting on it) refreshing. */
  lemma DamagedFileIsDirty(disk: Disk, op: Op, cfg: Config, env: Env)
    requires Damaged(disk) && Accepts(op, cfg)
    ensures var out := Transact(disk, op, cfg, env);
      && Readable(out.disk)
      && CorruptFound in out.events
      && out.disk.rec.holder == None
      && (op.DoStart? ==> out.disk.rec.status == Refreshing)
      && (!op.DoStart? ==> out.disk.rec.status == Dirty("unknown"))
  {
    TransactKeeps(disk, op, cfg, env);
    var r := Load(disk, env.now);
    assert Reap(r, cfg, env).rec == r;
  }
}
