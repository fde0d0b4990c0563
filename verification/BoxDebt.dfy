/** The refresh a box owes, read off a sequence of log lines: from the line that dirtied the box to the
    next REFRESH-OK. */
module BoxDebt {
  import opened BoxRecord
  import opened BoxInvariant
  import Seqs

  /** Log lines after which the box may be half-deployed. */
  predicate Dirties(e: Event) {
    match e
    case Corrupted => true
    case CorruptFound => true
    case Reclaim(_, _) => true
    case RefreshLost(_) => true
    case RefreshStarted(_) => true
    case RefreshFailed(_) => true
    case Released(_, clean) => !clean
    case _ => false
  }

  /** Whether a refresh is owed after `events`, given whether one was owed before. */
  function Debt(owed: bool, events: seq<Event>): bool {
    if events == [] then owed
    else
      var e := events[|events| - 1];
      Dirties(e) || (e != RefreshOk && Debt(owed, events[..|events| - 1]))
  }

  /** Every take in `events` found a box on which no refresh was owed. */
  ghost predicate Paid(owed: bool, events: seq<Event>) {
    forall j :: 0 <= j < |events| && events[j].Taken? ==> !Debt(owed, events[..j])
  }

  predicate Unready(s: Status) {
    s.Dirty? || s.Refreshing?
  }

  lemma {:induction false} DebtConcat(owed: bool, a: seq<Event>, b: seq<Event>)
    ensures Debt(owed, a + b) == Debt(Debt(owed, a), b)
  {
    if b == [] {
      assert a + b == a;
    } else {
      DebtConcat(owed, a, b[..|b| - 1]);
      assert (a + b)[..|a + b| - 1] == a + b[..|b| - 1];
    }
  }

  lemma PaidConcat(owed: bool, a: seq<Event>, b: seq<Event>)
    requires Paid(owed, a) && Paid(Debt(owed, a), b)
    ensures Paid(owed, a + b)
  {
    forall j | 0 <= j < |a + b| && (a + b)[j].Taken? ensures !Debt(owed, (a + b)[..j]) {
      if j < |a| {
        assert (a + b)[..j] == a[..j];
      } else {
        assert (a + b)[..j] == a + b[..j - |a|];
        DebtConcat(owed, a, b[..j - |a|]);
        assert b[j - |a|].Taken?;
      }
    }
  }

  lemma {:induction false} DebtLasts(owed: bool, events: seq<Event>, i: nat)
    requires i < |events| && Dirties(events[i])
    requires forall k :: i < k < |events| ==> events[k] != RefreshOk
    ensures Debt(owed, events)
  {
    if i < |events| - 1 {
      DebtLasts(owed, events[..|events| - 1], i);
    }
  }

  /** Lines that neither dirty nor clean the box and take nothing. */
  lemma {:induction false} QuietEvents(owed: bool, events: seq<Event>)
    requires forall e :: e in events ==> !Dirties(e) && e != RefreshOk && !e.Taken?
    ensures Debt(owed, events) == owed && Paid(owed, events)
  {
    if events != [] {
      Seqs.TakeHas(events, |events| - 1);
      QuietEvents(owed, events[..|events| - 1]);
    }
  }

  lemma OneEvent(owed: bool, e: Event)
    ensures Debt(owed, [e]) == (Dirties(e) || (e != RefreshOk && owed))
    ensures !(e.Taken? && owed) ==> Paid(owed, [e])
  {
    assert [e][..0] == [];
  }

  /** Some change leaves a record whose readiness matches the debt its log lines leave. */
  ghost predicate Settles(before: Rec, c: Change) {
    && Debt(Unready(before.status), c.events) == Unready(c.rec.status)
    && Paid(Unready(before.status), c.events)
  }

  lemma {:induction false} DropsAreQuiet(q: seq<Entry>, cfg: Config, env: Env)
    ensures forall e :: e in Drops(q, cfg, env) ==> e.Drop?
  {
    if q != [] { DropsAreQuiet(q[..|q| - 1], cfg, env); }
  }

  lemma ReapLines(r: Rec, cfg: Config, env: Env)
    ensures forall e :: e in Reap(r, cfg, env).events ==> e.Reclaim? || e.RefreshLost? || e.RefreshLate? || e.Drop?
  {
    DropsAreQuiet(ReapRefresh(ReapHolder(r, cfg, env).rec, env).rec.queue, cfg, env);
  }

  lemma ReapHolderSettles(r: Rec, cfg: Config, env: Env)
    requires Consistent(r)
    ensures Settles(r, ReapHolder(r, cfg, env))
  {
    if r.holder.Some? && HoldEnds(r.holder.value, cfg, env).Some? {
      OneEvent(Unready(r.status), Reclaim(r.holder.value.lane, HoldEnds(r.holder.value, cfg, env).value));
    }
  }

  lemma ReapRefreshSettles(r: Rec, env: Env)
    requires Consistent(r)
    ensures Settles(r, ReapRefresh(r, env))
  {
    if r.refresh.Some? {
      OneEvent(true, RefreshLost(AfterFailure(r.refresh.value.from)));
      OneEvent(true, RefreshLate);
    }
  }

  lemma ReapSettles(r: Rec, cfg: Config, env: Env)
    requires Consistent(r)
    ensures Settles(r, Reap(r, cfg, env))
  {
    var held := ReapHolder(r, cfg, env);
    ReapHolderKeeps(r, cfg, env);
    ReapHolderSettles(r, cfg, env);
    var refreshed := ReapRefresh(held.rec, env);
    ReapRefreshSettles(held.rec, env);
    var dropped := Drops(refreshed.rec.queue, cfg, env);
    DropsAreQuiet(refreshed.rec.queue, cfg, env);
    QuietEvents(Unready(refreshed.rec.status), dropped);
    var owed := Unready(r.status);
    DebtConcat(owed, held.events, refreshed.events);
    PaidConcat(owed, held.events, refreshed.events);
    DebtConcat(owed, held.events + refreshed.events, dropped);
    PaidConcat(owed, held.events + refreshed.events, dropped);
  }

  lemma TakeSettles(r: Rec, lane: string, pid: int, lease: Time, cfg: Config, now: Time)
    requires Consistent(r)
    ensures Settles(r, Take(r, lane, pid, lease, cfg, now))
  {
    var owed := Unready(r.status);
    QuietEvents(owed, JoinEvents(r, lane));
    OneEvent(owed, Taken(lane));
    DebtConcat(owed, JoinEvents(r, lane), [Taken(lane)]);
    if !owed {
      PaidConcat(owed, JoinEvents(r, lane), [Taken(lane)]);
    }
    QuietEvents(owed, []);
  }

  lemma StartSettles(r: Rec, token: string, pid: int, force: bool, cfg: Config, now: Time)
    requires Consistent(r)
    ensures Settles(r, StartRefresh(r, token, pid, force, cfg, now))
  {
    var owed := Unready(r.status);
    QuietEvents(owed, []);
    OneEvent(true, RefreshStarted(r.status));
    OneEvent(owed, RefreshStarted(r.status));
    if r.refresh.Some? {
      var from := AfterFailure(r.refresh.value.from);
      OneEvent(owed, RefreshLost(from));
      OneEvent(true, RefreshStarted(from));
      DebtConcat(owed, [RefreshLost(from)], [RefreshStarted(from)]);
      PaidConcat(owed, [RefreshLost(from)], [RefreshStarted(from)]);
    } else {
      assert [] + [RefreshStarted(r.status)] == [RefreshStarted(r.status)];
    }
  }

  lemma ReleaseSettles(r: Rec, lane: string, clean: bool, note: string)
    requires Consistent(r)
    ensures Settles(r, Release(r, lane, clean, note))
  {
    var owed := Unready(r.status);
    OneEvent(owed, Released(lane, clean));
    OneEvent(owed, Withdrawn(lane));
    QuietEvents(owed, []);
  }

  lemma FinishSettles(r: Rec, token: string, ok: bool, why: string)
    requires Consistent(r)
    ensures Settles(r, FinishRefresh(r, token, ok, why))
  {
    var owed := Unready(r.status);
    QuietEvents(owed, []);
    OneEvent(owed, RefreshOk);
    if r.refresh.Some? {
      OneEvent(owed, RefreshFailed(AfterFailure(r.refresh.value.from)));
    }
  }

  lemma ApplySettles(r: Rec, op: Op, cfg: Config, now: Time)
    requires Consistent(r) && Accepts(op, cfg)
    ensures Settles(r, Apply(r, op, cfg, now))
  {
    var owed := Unready(r.status);
    QuietEvents(owed, []);
    match op
    case DoEnqueue(lane, pid) => QuietEvents(owed, JoinEvents(r, lane));
    case DoTake(lane, pid, lease) => TakeSettles(r, lane, pid, lease, cfg, now);
    case DoRenew(lane, _) => OneEvent(owed, Renewed(lane));
    case DoRelease(lane, clean, note) => ReleaseSettles(r, lane, clean, note);
    case DoStatus =>
    case DoStart(token, pid, force) => StartSettles(r, token, pid, force, cfg, now);
    case DoFinish(token, ok, why) => FinishSettles(r, token, ok, why);
  }

  /** A transaction's log lines and the box it leaves agree on whether a refresh is owed, and it takes
      the box only when none is. */
  lemma TransactSettles(disk: Disk, op: Op, cfg: Config, env: Env)
    requires DiskOk(disk) && Accepts(op, cfg)
    ensures var out := Transact(disk, op, cfg, env);
      && Debt(Unready(StatusOn(disk)), out.events) == Unready(StatusOn(out.disk))
      && Paid(Unready(StatusOn(disk)), out.events)
  {
    var r := Load(disk, env.now);
    LoadIsConsistent(disk, env.now);
    var owed := Unready(StatusOn(disk));
    assert Unready(r.status) == owed;
    ReapKeeps(r, cfg, env);
    ReapSettles(r, cfg, env);
    var reaped := Reap(r, cfg, env);
    ApplySettles(reaped.rec, op, cfg, env.now);
    var applied := Apply(reaped.rec, op, cfg, env.now);
    TransactKeeps(disk, op, cfg, env);
    OneEvent(owed, CorruptFound);
    QuietEvents(owed, []);
    var loaded := LoadEvents(disk);
    assert Debt(owed, loaded) == owed && Paid(owed, loaded);
    DebtConcat(owed, loaded, reaped.events);
    PaidConcat(owed, loaded, reaped.events);
    DebtConcat(owed, loaded + reaped.events, applied.events);
    PaidConcat(owed, loaded + reaped.events, applied.events);
  }
}
